/** The scoring effects: what `activateSpecial` pushes for each special kind,
    and `computeIncrement`, which multiplies a pair's base score by every
    active multiplicative effect, adds every active additive effect and rounds
    the way `Math.round` does. */
module Effects {
  import opened Helpers
  import opened Rng
  import opened Deck

  /** The `kind` field of an effect. */
  datatype Operation = Multiply | Add | PlusMinus50 | MulOrDiv5

  /** `{id, kind, value, active, label}`; the label is called `caption` here
      (`label` is a Dafny keyword). The value 0.2 of the ÷5 outcome is the
      exact real 1/5. */
  datatype Effect = Effect(id: string, kind: Operation, value: real, active: bool, caption: string)

  /** The dedup id `"spec_" + kind`. */
  function EffectId(k: SpecialKind): string {
    "spec_" + KindName(k)
  }

  lemma EffectIdInjective(k1: SpecialKind, k2: SpecialKind)
    requires EffectId(k1) == EffectId(k2)
    ensures k1 == k2
  {
    assert EffectId(k1)[5..] == KindName(k1);
    assert EffectId(k2)[5..] == KindName(k2);
  }

  /** The effect `activateSpecial(k)` pushes when its one draw is r:
      kakeru picks ×2, ×3 or ×4 and tasu +10, +20 or +30 by `floor(r * 3)`;
      tasuhiku is +50 when r < 0.5 and -50 otherwise; kakewaru is ×5 when
      r < 0.5 and ×0.2 (shown "÷5") otherwise. */
  function EffectFor(k: SpecialKind, r: Draw): (e: Effect)
    ensures e.id == EffectId(k) && e.active
  {
    var id := EffectId(k);
    match k
    case Kakeru =>
      var n := [2, 3, 4][ChoiceIndex(r, 3)];
      Effect(id, Multiply, n as real, true, "×" + IntToString(n))
    case Tasu =>
      var n := [10, 20, 30][ChoiceIndex(r, 3)];
      Effect(id, Add, n as real, true, "+" + IntToString(n))
    case Tasuhiku =>
      var v := if r < 0.5 then 50 else -50;
      Effect(id, PlusMinus50, v as real, true, (if v >= 0 then "+" else "") + IntToString(v))
    case Kakewaru =>
      var mul: real := if r < 0.5 then 5.0 else 0.2;
      Effect(id, MulOrDiv5, mul, true, if mul == 5.0 then "×5" else "÷5")
  }

  /** kakeru is ×2, ×3 or ×4. */
  lemma KakeruOutcomes(r: Draw)
    ensures var e := EffectFor(Kakeru, r);
            e.kind == Multiply && ((e.value == 2.0 && e.caption == "×2") ||
                                   (e.value == 3.0 && e.caption == "×3") ||
                                   (e.value == 4.0 && e.caption == "×4"))
  {
    var j := ChoiceIndex(r, 3);
    assert j == 0 || j == 1 || j == 2;
  }

  /** tasu is +10, +20 or +30. */
  lemma TasuOutcomes(r: Draw)
    ensures var e := EffectFor(Tasu, r);
            e.kind == Add && ((e.value == 10.0 && e.caption == "+10") ||
                              (e.value == 20.0 && e.caption == "+20") ||
                              (e.value == 30.0 && e.caption == "+30"))
  {
    var j := ChoiceIndex(r, 3);
    assert j == 0 || j == 1 || j == 2;
    assert DecimalString(10) == "10" && DecimalString(20) == "20" && DecimalString(30) == "30";
  }

  /** tasuhiku is +50 on a draw below one half and -50 otherwise. */
  lemma TasuhikuOutcomes(r: Draw)
    ensures var e := EffectFor(Tasuhiku, r);
            e.kind == PlusMinus50 && (if r < 0.5 then e.value == 50.0 && e.caption == "+50"
                                      else e.value == -50.0 && e.caption == "-50")
  {
    assert DecimalString(50) == "50";
  }

  /** kakewaru is ×5 on a draw below one half and ÷5 (×1/5) otherwise. */
  lemma KakewaruOutcomes(r: Draw)
    ensures var e := EffectFor(Kakewaru, r);
            e.kind == MulOrDiv5 && (if r < 0.5 then e.value == 5.0 && e.caption == "×5"
                                    else e.value == 1.0 / 5.0 && e.caption == "÷5")
  {
  }

  /** Every activated effect is active, carries its kind's id, and its
      operation is the kind's own. */
  lemma EffectOutcomes(k: SpecialKind, r: Draw)
    ensures EffectFor(k, r).id == "spec_" + KindName(k) && EffectFor(k, r).active
    ensures EffectFor(k, r).kind == match k
                                    case Kakeru => Multiply
                                    case Tasu => Add
                                    case Tasuhiku => PlusMinus50
                                    case Kakewaru => MulOrDiv5
  {
  }

  // ----- computeIncrement -----

  /** What an effect contributes to the multiplier. */
  function Factor(e: Effect): real {
    if e.active && (e.kind == Multiply || e.kind == MulOrDiv5) then e.value else 1.0
  }

  /** What an effect contributes to the additive term. */
  function Term(e: Effect): real {
    if e.active && (e.kind == Add || e.kind == PlusMinus50) then e.value else 0.0
  }

  /** The multiplier: the product of every active multiply / mulOrDiv5 value. */
  function Product(es: seq<Effect>): real {
    if es == [] then 1.0 else Product(es[..|es| - 1]) * Factor(es[|es| - 1])
  }

  /** The additive term: the sum of every active add / plusMinus50 value. */
  function Sum(es: seq<Effect>): real {
    if es == [] then 0.0 else Sum(es[..|es| - 1]) + Term(es[|es| - 1])
  }

  /** `Math.round`: the integer nearest to x, a tie going up (floor(x + 1/2)). */
  function Round(x: real): (n: int)
    ensures n as real - 0.5 <= x < n as real + 0.5
  {
    (x + 0.5).Floor
  }

  /** The increment for a numeric pair with base `base` under `effects`. */
  function IncrementOf(base: int, effects: seq<Effect>): int {
    Round(base as real * Product(effects) + Sum(effects))
  }

  /** `computeIncrement(baseAdd, effects)`: one loop accumulates the
      multiplier, a second the additive term, and the sum is rounded. */
  method ComputeIncrement(baseAdd: int, effects: seq<Effect>) returns (inc: int)
    ensures inc == IncrementOf(baseAdd, effects)
  {
    var v: real := baseAdd as real;
    var mul: real := 1.0;
    var i := 0;
    while i < |effects|
      invariant 0 <= i <= |effects|
      invariant mul == Product(effects[..i])
    {
      var e := effects[i];
      assert effects[..i + 1][..i] == effects[..i];
      if e.active {
        if e.kind == Multiply {
          mul := mul * e.value;
        }
        if e.kind == MulOrDiv5 {
          mul := mul * e.value;
        }
      }
      i := i + 1;
    }
    assert effects[..|effects|] == effects;
    v := v * mul;
    var add: real := 0.0;
    i := 0;
    while i < |effects|
      invariant 0 <= i <= |effects|
      invariant add == Sum(effects[..i])
    {
      var e := effects[i];
      assert effects[..i + 1][..i] == effects[..i];
      if e.active {
        if e.kind == Add {
          add := add + e.value;
        }
        if e.kind == PlusMinus50 {
          add := add + e.value;
        }
      }
      i := i + 1;
    }
    v := v + add;
    inc := Round(v);
  }

  /** With no effects the increment is the base itself. */
  lemma NoEffectsIncrement(base: int)
    ensures IncrementOf(base, []) == base
  {
  }

  /** The two worked cases: base 10 with ×3 and +20 gives 50; base 2 (the
      smallest pair base) with ÷5 and -50 gives round(-49.6) = -50, a negative
      increment, which nothing clamps. */
  lemma IncrementExamples()
    ensures IncrementOf(10, [Effect("spec_kakeru", Multiply, 3.0, true, "×3"),
                             Effect("spec_tasu", Add, 20.0, true, "+20")]) == 50
    ensures IncrementOf(2, [Effect("spec_kakewaru", MulOrDiv5, 0.2, true, "÷5"),
                            Effect("spec_tasuhiku", PlusMinus50, -50.0, true, "-50")]) == -50
  {
    var a := [Effect("spec_kakeru", Multiply, 3.0, true, "×3"), Effect("spec_tasu", Add, 20.0, true, "+20")];
    assert a[..1][..0] == [] && a[..1] == [a[0]];
    assert Product(a) == 3.0 && Sum(a) == 20.0;
    assert Round(50.0) == 50;
    var b := [Effect("spec_kakewaru", MulOrDiv5, 0.2, true, "÷5"), Effect("spec_tasuhiku", PlusMinus50, -50.0, true, "-50")];
    assert b[..1][..0] == [] && b[..1] == [b[0]];
    assert Product(b) == 0.2 && Sum(b) == -50.0;
    assert Round(-49.6) == -50;
  }

  // ----- Inactive effects are ignored -----

  /** The effects whose `active` flag is set, in order. */
  function ActiveOnly(es: seq<Effect>): (r: seq<Effect>)
    ensures forall i :: 0 <= i < |r| ==> r[i].active
  {
    if es == [] then []
    else ActiveOnly(es[..|es| - 1]) + (if es[|es| - 1].active then [es[|es| - 1]] else [])
  }

  /** A left fold of a per-effect value under a binary operation: the
      multiplier and the additive term are both folds. */
  function Fold(es: seq<Effect>, g: Effect -> real, op: (real, real) -> real, unit: real): real {
    if es == [] then unit else op(Fold(es[..|es| - 1], g, op, unit), g(es[|es| - 1]))
  }

  /** The last two operands of op may be exchanged. */
  ghost predicate Regroups(op: (real, real) -> real) {
    forall a, b, c :: op(op(a, b), c) == op(op(a, c), b)
  }

  lemma {:induction false} ProductIsFold(es: seq<Effect>)
    ensures Product(es) == Fold(es, Factor, (a, b) => a * b, 1.0)
  {
    if es != [] {
      ProductIsFold(es[..|es| - 1]);
    }
  }

  lemma {:induction false} SumIsFold(es: seq<Effect>)
    ensures Sum(es) == Fold(es, Term, (a, b) => a + b, 0.0)
  {
    if es != [] {
      SumIsFold(es[..|es| - 1]);
    }
  }

  lemma FoldPush(es: seq<Effect>, e: Effect, g: Effect -> real, op: (real, real) -> real, unit: real)
    ensures Fold(es + [e], g, op, unit) == op(Fold(es, g, op, unit), g(e))
  {
    assert (es + [e])[..|es|] == es;
  }

  /** Dropping the inactive effects does not change a fold in which every
      inactive effect is an identity operand. */
  lemma {:induction false} FoldActiveOnly(es: seq<Effect>, g: Effect -> real,
                                          op: (real, real) -> real, unit: real)
    requires forall x: real, e: Effect :: !e.active ==> op(x, g(e)) == x
    ensures Fold(ActiveOnly(es), g, op, unit) == Fold(es, g, op, unit)
  {
    if es != [] {
      var n := |es| - 1;
      var kept := ActiveOnly(es[..n]);
      FoldActiveOnly(es[..n], g, op, unit);
      if es[n].active {
        FoldPush(kept, es[n], g, op, unit);
      } else {
        assert ActiveOnly(es) == kept;
      }
    }
  }

  lemma ActiveOnlyAgrees(es: seq<Effect>)
    ensures Product(ActiveOnly(es)) == Product(es)
    ensures Sum(ActiveOnly(es)) == Sum(es)
  {
    var mul, add := (x: real, y: real) => x * y, (x: real, y: real) => x + y;
    ProductIsFold(es);
    ProductIsFold(ActiveOnly(es));
    SumIsFold(es);
    SumIsFold(ActiveOnly(es));
    FoldActiveOnly(es, Factor, mul, 1.0);
    FoldActiveOnly(es, Term, add, 0.0);
  }

  lemma SameTotalsSameIncrement(base: int, es: seq<Effect>, fs: seq<Effect>)
    requires Product(es) == Product(fs) && Sum(es) == Sum(fs)
    ensures IncrementOf(base, es) == IncrementOf(base, fs)
  {
  }

  /** Inactive effects do not change the increment. */
  lemma InactiveIgnored(base: int, es: seq<Effect>)
    ensures IncrementOf(base, ActiveOnly(es)) == IncrementOf(base, es)
  {
    ActiveOnlyAgrees(es);
    SameTotalsSameIncrement(base, ActiveOnly(es), es);
  }

  // ----- Order does not matter -----

  /** Taking the element at k out of the list and applying it last gives
      the same fold. */
  lemma {:induction false} FoldRemoveAt(es: seq<Effect>, k: nat, g: Effect -> real,
                                        op: (real, real) -> real, unit: real)
    requires k < |es| && Regroups(op)
    ensures Fold(es, g, op, unit) == op(Fold(es[..k] + es[k + 1..], g, op, unit), g(es[k]))
    decreases |es|
  {
    var n := |es| - 1;
    var rest := es[..k] + es[k + 1..];
    if k == n {
      assert rest == es[..n];
    } else {
      var inner := es[..n][..k] + es[..n][k + 1..];
      FoldRemoveAt(es[..n], k, g, op, unit);
      assert es[..n][k] == es[k];
      assert rest == inner + [es[n]];
      FoldPush(inner, es[n], g, op, unit);
      var x, y, z := Fold(inner, g, op, unit), g(es[k]), g(es[n]);
      assert Fold(es, g, op, unit) == op(op(x, y), z);
      assert op(op(x, y), z) == op(op(x, z), y);
    }
  }

  /** Removing the element at k takes one copy of it out of the multiset. */
  lemma RemoveOne(b: seq<Effect>, k: nat)
    requires k < |b|
    ensures multiset(b[..k] + b[k + 1..]) == multiset(b) - multiset{b[k]}
  {
    assert b == b[..k] + [b[k]] + b[k + 1..];
  }

  /** Taking the last element of a and an equal element of b out of two
      permutations of each other leaves permutations of each other. */
  lemma PermutationRest(a: seq<Effect>, b: seq<Effect>, k: nat)
    requires multiset(a) == multiset(b) && a != [] && k < |b| && b[k] == a[|a| - 1]
    ensures multiset(a[..|a| - 1]) == multiset(b[..k] + b[k + 1..])
  {
    var n := |a| - 1;
    RemoveOne(a, n);
    RemoveOne(b, k);
    assert a[..n] + a[n + 1..] == a[..n];
  }

  /** Folds under a regrouping operation do not depend on the order. */
  lemma {:induction false} FoldPermutation(a: seq<Effect>, b: seq<Effect>, g: Effect -> real,
                                           op: (real, real) -> real, unit: real)
    requires multiset(a) == multiset(b) && Regroups(op)
    ensures Fold(a, g, op, unit) == Fold(b, g, op, unit)
    decreases |a|
  {
    if a == [] {
      assert |b| == |multiset(b)| == 0;
    } else {
      var n := |a| - 1;
      var x := a[n];
      assert x in multiset(b);
      var k :| 0 <= k < |b| && b[k] == x;
      var rest := b[..k] + b[k + 1..];
      PermutationRest(a, b, k);
      FoldPermutation(a[..n], rest, g, op, unit);
      FoldRemoveAt(b, k, g, op, unit);
    }
  }

  lemma PermutationAgrees(a: seq<Effect>, b: seq<Effect>)
    requires multiset(a) == multiset(b)
    ensures Product(a) == Product(b) && Sum(a) == Sum(b)
  {
    var mul, add := (x: real, y: real) => x * y, (x: real, y: real) => x + y;
    assert Regroups(mul) && Regroups(add);
    ProductIsFold(a);
    ProductIsFold(b);
    SumIsFold(a);
    SumIsFold(b);
    FoldPermutation(a, b, Factor, mul, 1.0);
    FoldPermutation(a, b, Term, add, 0.0);
  }

  /** The order of the effects does not matter: any rearrangement gives the
      same increment. */
  lemma OrderIndependent(base: int, a: seq<Effect>, b: seq<Effect>)
    requires multiset(a) == multiset(b)
    ensures IncrementOf(base, a) == IncrementOf(base, b)
  {
    PermutationAgrees(a, b);
    SameTotalsSameIncrement(base, a, b);
  }

  // ----- Effects built by activations -----

  /** One activation: the special kind and the draw it used. */
  datatype Activation = Activation(kind: SpecialKind, draw: Draw)

  /** `es` is the effects list the activations `acts` push, in order:
      effect j is the one `activateSpecial` builds for activation j. */
  predicate BuiltFrom(es: seq<Effect>, acts: seq<Activation>) {
    |es| == |acts| && forall j :: 0 <= j < |acts| ==> es[j] == EffectFor(acts[j].kind, acts[j].draw)
  }

  /** No special kind was activated twice. */
  predicate DistinctKinds(acts: seq<Activation>) {
    forall i, j :: 0 <= i < j < |acts| ==> acts[i].kind != acts[j].kind
  }

  /** Some activation was of kind k. */
  predicate HasKind(acts: seq<Activation>, k: SpecialKind) {
    exists j :: 0 <= j < |acts| && acts[j].kind == k
  }

  /** An activation appends its own effect, keeping the list built from the
      activations. */
  lemma BuiltFromPush(es: seq<Effect>, acts: seq<Activation>, k: SpecialKind, r: Draw)
    requires BuiltFrom(es, acts)
    ensures BuiltFrom(es + [EffectFor(k, r)], acts + [Activation(k, r)])
  {
    var es', acts' := es + [EffectFor(k, r)], acts + [Activation(k, r)];
    forall j | 0 <= j < |acts'|
      ensures es'[j] == EffectFor(acts'[j].kind, acts'[j].draw)
    {
      if j < |acts| {
        assert es'[j] == es[j] && acts'[j] == acts[j];
      }
    }
  }

  /** Activating a kind not activated before keeps the kinds distinct. */
  lemma DistinctKindsPush(acts: seq<Activation>, k: SpecialKind, r: Draw)
    requires DistinctKinds(acts) && !HasKind(acts, k)
    ensures DistinctKinds(acts + [Activation(k, r)])
  {
    var acts' := acts + [Activation(k, r)];
    forall i, j | 0 <= i < j < |acts'|
      ensures acts'[i].kind != acts'[j].kind
    {
      assert acts'[i] == acts[i];
      if j == |acts| {
        assert acts[i].kind != k;
      } else {
        assert acts'[j] == acts[j];
      }
    }
  }

  /** The dedup test of `activateSpecial` on an effects list built from
      activations: an effect with id `"spec_" + k` is present exactly when
      kind k was activated. */
  lemma ActivatedIds(es: seq<Effect>, acts: seq<Activation>, k: SpecialKind)
    requires BuiltFrom(es, acts)
    ensures (exists j :: 0 <= j < |es| && es[j].id == EffectId(k)) <==> HasKind(acts, k)
  {
    if j :| 0 <= j < |es| && es[j].id == EffectId(k) {
      EffectIdInjective(acts[j].kind, k);
    }
  }

  /** The kinds activated. */
  function KindsOf(acts: seq<Activation>): set<SpecialKind> {
    set j | 0 <= j < |acts| :: acts[j].kind
  }

  lemma KindsOfPush(acts: seq<Activation>)
    requires acts != [] && DistinctKinds(acts)
    ensures KindsOf(acts) == KindsOf(acts[..|acts| - 1]) + {acts[|acts| - 1].kind}
    ensures acts[|acts| - 1].kind !in KindsOf(acts[..|acts| - 1])
  {
    var n := |acts| - 1;
    forall x | x in KindsOf(acts)
      ensures x in KindsOf(acts[..n]) + {acts[n].kind}
    {
      var j :| 0 <= j < |acts| && acts[j].kind == x;
      if j < n {
        assert acts[..n][j] == acts[j];
      }
    }
    forall x | x in KindsOf(acts[..n])
      ensures x in KindsOf(acts)
    {
      var j :| 0 <= j < n && acts[..n][j].kind == x;
      assert acts[j].kind == x;
    }
  }

  lemma {:induction false} KindsOfCount(acts: seq<Activation>)
    requires DistinctKinds(acts)
    ensures |KindsOf(acts)| == |acts|
  {
    if acts != [] {
      var n := |acts| - 1;
      KindsOfCount(acts[..n]);
      KindsOfPush(acts);
    }
  }

  /** There are four special kinds, so at most four distinct activations. */
  lemma AtMostFourKinds(acts: seq<Activation>)
    requires DistinctKinds(acts)
    ensures |acts| <= 4
  {
    KindsOfCount(acts);
    var kinds := KindsOf(acts);
    var all: set<SpecialKind> := {Kakeru, Kakewaru, Tasu, Tasuhiku};
    forall x | x in kinds
      ensures x in all
    {
      match x
      case Kakeru =>
      case Kakewaru =>
      case Tasu =>
      case Tasuhiku =>
    }
    assert all == kinds + (all - kinds);
    assert |all| == 4;
  }

  /** Dedup bounds the effects list: at most one effect per special kind,
      so at most four. */
  lemma AtMostFourEffects(es: seq<Effect>, acts: seq<Activation>)
    requires BuiltFrom(es, acts) && DistinctKinds(acts)
    ensures |es| <= 4
  {
    AtMostFourKinds(acts);
  }

  // ----- Rounding never meets a tie -----

  predicate IsIntegral(x: real) {
    x.Floor as real == x
  }

  /** The numeric shape of every effect the game creates: a whole-number
      additive term, and a whole-number factor except for mulOrDiv5, whose
      factor is 5 or 1/5. */
  predicate WellShaped(e: Effect) {
    && IsIntegral(Term(e))
    && (if e.kind == MulOrDiv5 then Factor(e) == 5.0 || Factor(e) == 1.0 / 5.0
        else IsIntegral(Factor(e)))
  }

  /** At most one effect of kind mulOrDiv5. */
  predicate AtMostOneDiv5(es: seq<Effect>) {
    forall i, j :: 0 <= i < j < |es| && es[i].kind == MulOrDiv5 ==> es[j].kind != MulOrDiv5
  }

  lemma ActivationShape(k: SpecialKind, r: Draw)
    ensures WellShaped(EffectFor(k, r))
    ensures EffectFor(k, r).kind == MulOrDiv5 <==> k == Kakewaru
  {
    match k
    case Kakeru => KakeruOutcomes(r);
    case Tasu => TasuOutcomes(r);
    case Tasuhiku => TasuhikuOutcomes(r);
    case Kakewaru => KakewaruOutcomes(r);
  }

  /** The effects of distinct activations are well shaped and hold at most
      one mulOrDiv5. */
  lemma ActivatedShape(es: seq<Effect>, acts: seq<Activation>)
    requires BuiltFrom(es, acts) && DistinctKinds(acts)
    ensures forall i :: 0 <= i < |es| ==> WellShaped(es[i])
    ensures AtMostOneDiv5(es)
  {
    forall i | 0 <= i < |acts|
      ensures WellShaped(es[i]) && (es[i].kind == MulOrDiv5 <==> acts[i].kind == Kakewaru)
    {
      ActivationShape(acts[i].kind, acts[i].draw);
    }
  }

  lemma IntegralMul(x: real, y: real)
    requires IsIntegral(x) && IsIntegral(y)
    ensures IsIntegral(x * y)
  {
    var a, b := x.Floor, y.Floor;
    assert x * y == (a * b) as real;
  }

  /** Carries integrality across an equation between two real terms. The
      proofs below call it so that the solver sees IsIntegral applied to the
      exact term it needs next: it does not substitute equal reals inside
      `.Floor` on its own. */
  lemma IntegralEq(x: real, y: real)
    requires IsIntegral(x) && x == y
    ensures IsIntegral(y)
  {
  }

  lemma IntegralAdd(x: real, y: real)
    requires IsIntegral(x) && IsIntegral(y)
    ensures IsIntegral(x + y)
  {
    assert x + y == (x.Floor + y.Floor) as real;
  }

  lemma {:induction false} SumIntegral(es: seq<Effect>)
    requires forall i :: 0 <= i < |es| ==> WellShaped(es[i])
    ensures IsIntegral(Sum(es))
  {
    if es != [] {
      var n := |es| - 1;
      SumIntegral(es[..n]);
      assert WellShaped(es[n]);
      IntegralAdd(Sum(es[..n]), Term(es[n]));
    }
  }

  /** Without mulOrDiv5 the multiplier is a whole number. */
  lemma {:induction false} ProductIntegral(es: seq<Effect>)
    requires forall i :: 0 <= i < |es| ==> WellShaped(es[i]) && es[i].kind != MulOrDiv5
    ensures IsIntegral(Product(es))
  {
    if es != [] {
      var n := |es| - 1;
      ProductIntegral(es[..n]);
      assert WellShaped(es[n]) && es[n].kind != MulOrDiv5;
      var p, f := Product(es[..n]), Factor(es[n]);
      IntegralMul(p, f);
      IntegralEq(p * f, Product(es));
    }
  }

  lemma FifthsStep(p: real, f: real)
    requires IsIntegral(5.0 * p) && IsIntegral(f)
    ensures IsIntegral(5.0 * (p * f))
  {
    var q := 5.0 * p;
    IntegralMul(q, f);
    IntegralEq(q * f, 5.0 * (p * f));
  }

  lemma Div5Step(p: real, f: real)
    requires IsIntegral(p) && (f == 5.0 || f == 1.0 / 5.0)
    ensures IsIntegral(5.0 * (p * f))
  {
    if f == 5.0 {
      IntegralMul(p, 25.0);
      IntegralEq(p * 25.0, 5.0 * (p * f));
    } else {
      IntegralEq(p, 5.0 * (p * f));
    }
  }

  /** The case of ProductFifths where the last effect is the mulOrDiv5:
      every earlier factor is whole. */
  lemma LastDiv5Fifths(es: seq<Effect>)
    requires forall i :: 0 <= i < |es| ==> WellShaped(es[i])
    requires AtMostOneDiv5(es)
    requires es != [] && es[|es| - 1].kind == MulOrDiv5
    ensures IsIntegral(5.0 * Product(es))
  {
    var n := |es| - 1;
    var pre := es[..n];
    var p, f := Product(pre), Factor(es[n]);
    assert WellShaped(es[n]);
    ProductIntegral(pre);
    Div5Step(p, f);
    IntegralEq(5.0 * (p * f), 5.0 * Product(es));
  }

  /** With at most one mulOrDiv5, five times the multiplier is a whole
      number. */
  lemma {:induction false} ProductFifths(es: seq<Effect>)
    requires forall i :: 0 <= i < |es| ==> WellShaped(es[i])
    requires AtMostOneDiv5(es)
    ensures IsIntegral(5.0 * Product(es))
  {
    if es != [] {
      var n := |es| - 1;
      if es[n].kind == MulOrDiv5 {
        LastDiv5Fifths(es);
      } else {
        var pre := es[..n];
        var p, f := Product(pre), Factor(es[n]);
        assert WellShaped(es[n]);
        ProductFifths(pre);
        FifthsStep(p, f);
        IntegralEq(5.0 * (p * f), 5.0 * Product(es));
      }
    }
  }

  /** A value whose fivefold is whole is never halfway between integers. */
  lemma NoHalfway(x: real)
    requires IsIntegral(5.0 * x)
    ensures -0.5 < x - Round(x) as real < 0.5
  {
  }

  /** The increment lies strictly within one half of the exact value
      `base * m + a`: the value is never a tie for rounding. */
  predicate StrictlyNearest(base: int, es: seq<Effect>) {
    -0.5 < base as real * Product(es) + Sum(es) - IncrementOf(base, es) as real < 0.5
  }

  /** Over well-shaped effects with at most one mulOrDiv5, `base * m + a`
      is never exactly halfway between two integers. */
  lemma NoTie(base: int, es: seq<Effect>)
    requires forall i :: 0 <= i < |es| ==> WellShaped(es[i])
    requires AtMostOneDiv5(es)
    ensures StrictlyNearest(base, es)
  {
    var p, a := Product(es), Sum(es);
    ProductFifths(es);
    SumIntegral(es);
    FiveTimesWhole(base, p, a);
    var x := base as real * p + a;
    NoHalfway(x);
    assert IncrementOf(base, es) == Round(x);
  }

  /** For every base and every effects list the game can build, rounding
      never meets a tie, so `Math.round`'s tie rule never decides an
      increment. */
  lemma NeverATie(base: int, es: seq<Effect>, acts: seq<Activation>)
    requires BuiltFrom(es, acts) && DistinctKinds(acts)
    ensures StrictlyNearest(base, es)
  {
    ActivatedShape(es, acts);
    NoTie(base, es);
  }

  lemma FiveTimesWhole(base: int, p: real, a: real)
    requires IsIntegral(5.0 * p) && IsIntegral(a)
    ensures IsIntegral(5.0 * (base as real * p + a))
  {
    var b, q, c := base as real, 5.0 * p, 5.0 * a;
    IntegralMul(b, q);
    IntegralMul(5.0, a);
    var u, v := b * q, 5.0 * a;
    IntegralAdd(u, v);
    IntegralEq(u + v, 5.0 * (base as real * p + a));
  }
}
