/** The weight check of `loadContainer` as the Java source writes it:
    `currentWeight + grossWeight > maxWeight` on 32-bit `int`s. The sum wraps
    around when the ship's limit lies within 30 tonnes of `Integer.MAX_VALUE`,
    the check then passes and the cached weight turns negative. The model of
    `Load` compares mathematical integers, as the documented rule intends;
    this module states the wrapping version and shows where the two part. */
module WeightOverflow {
  import opened Wrappers
  import opened Containers
  import opened Manifests

  const Int32Min: int := -0x8000_0000
  const Int32Max: int := 0x7fff_ffff
  const Int32Modulus: int := 0x1_0000_0000

  predicate IsInt32(x: int) {
    Int32Min <= x <= Int32Max
  }

  /** Java `int` addition: the sum reduced into the 32-bit range. */
  function Int32Add(a: int, b: int): (r: int)
    ensures IsInt32(r)
    ensures (a + b - r) % Int32Modulus == 0
    ensures IsInt32(a + b) ==> r == a + b
  {
    var s := (a + b) % Int32Modulus;
    if s > Int32Max then s - Int32Modulus else s
  }

  /** `loadContainer` with the weight check and the weight update computed
      in 32-bit arithmetic, as written. */
  function LoadAsWritten(m: CargoManifest, c: Container): (r: Step)
    ensures r.outcome.Fail? ==> r.after == m
    ensures r.outcome == Fail(WeightExceeded) <==> Int32Add(m.currentWeight, c.grossWeight) > m.maxWeight
  {
    if Int32Add(m.currentWeight, c.grossWeight) > m.maxWeight then
      Step(m, Fail(WeightExceeded))
    else if WhichStack(m, c.code).Some? then
      Step(m, Fail(Duplicate))
    else
      match FirstFit(m.stacks, m.maxHeight, c.Kind(), 0)
      case None => Step(m, Fail(NoSpace))
      case Some(i) =>
        var placed := m.(stacks := m.stacks[i := m.stacks[i] + [c]],
                         currentWeight := Int32Add(m.currentWeight, c.grossWeight));
        Step(placed, Pass)
  }

  /** Whenever the sum fits in 32 bits the code as written and the model
      agree on every outcome and every resulting state. */
  lemma AsWrittenAgreesWithoutOverflow(m: CargoManifest, c: Container)
    requires IsInt32(m.currentWeight + c.grossWeight)
    ensures LoadAsWritten(m, c) == Load(m, c)
  {
  }

  // ---------------------------------------------------------------------
  // A valid manifest on which the two part
  // ---------------------------------------------------------------------

  /** The number of 30-tonne containers that bring the total to
      2147483640 tonnes, 7 below `Integer.MAX_VALUE`. */
  const Heavy: nat := 71582788

  /** A 30-tonne general-goods container; distinct `i` give distinct codes. */
  function Tagged(i: nat): Container {
    GeneralGoodsContainer(ContainerCode(seq(i, _ => 'A')), 30)
  }

  /** `n` stacks of height one holding `Tagged(0)` .. `Tagged(n - 1)`,
      then one empty stack. */
  function Row(n: nat): seq<Stack> {
    seq(n + 1, (i: int) requires 0 <= i <= n => if i < n then [Tagged(i)] else [])
  }

  /** A ship whose weight limit is `Integer.MAX_VALUE`, loaded with `n`
      containers of 30 tonnes. */
  function HeavyShip(n: nat): CargoManifest {
    CargoManifest(Row(n), 1, Int32Max, 30 * n)
  }

  lemma {:induction false} RowPrefixWeight(n: nat, k: nat)
    requires k <= n
    ensures TotalWeight(Row(n)[..k]) == 30 * k
    decreases k
  {
    if k > 0 {
      var p := Row(n)[..k];
      assert p[..k - 1] == Row(n)[..k - 1];
      RowPrefixWeight(n, k - 1);
      assert p[k - 1] == [Tagged(k - 1)];
      assert p[k - 1][..0] == [];
      assert StackWeight(p[k - 1]) == 30;
      assert TotalWeight(p) == TotalWeight(p[..k - 1]) + StackWeight(p[k - 1]);
    }
  }

  /** The heavy ship satisfies the class invariant whenever its load stays
      within the limit. */
  lemma HeavyShipIsValid(n: nat)
    requires 30 * n <= Int32Max
    ensures Valid(HeavyShip(n))
  {
    var stacks: seq<Stack> := Row(n);
    assert stacks[..n + 1] == stacks;
    RowPrefixWeight(n, n);
    assert stacks[..n] == stacks[..n + 1][..n];
    assert stacks[n] == [];
    forall i, j, i', j' |
      && 0 <= i < |stacks| && 0 <= j < |stacks[i]|
      && 0 <= i' < |stacks| && 0 <= j' < |stacks[i']|
      && stacks[i][j].code == stacks[i'][j'].code
      ensures i == i' && j == j'
    {
      assert |stacks[i][j].code.text| == i;
      assert |stacks[i'][j'].code.text| == i';
    }
  }

  /** The counterexample: on a valid ship loaded to 2147483640 of its
      2147483647 tonnes, a further 30-tonne container exceeds the limit. The
      model rejects it; the code as written accepts it, and its cached weight
      wraps to a negative number. */
  lemma OverflowAdmitsOverweightLoad()
    ensures Valid(HeavyShip(Heavy))
    ensures HeavyShip(Heavy).currentWeight + Tagged(Heavy).grossWeight > HeavyShip(Heavy).maxWeight
    ensures Load(HeavyShip(Heavy), Tagged(Heavy)).outcome == Fail(WeightExceeded)
    ensures LoadAsWritten(HeavyShip(Heavy), Tagged(Heavy)).outcome.Pass?
    ensures LoadAsWritten(HeavyShip(Heavy), Tagged(Heavy)).after.currentWeight < 0
  {
    var m := HeavyShip(Heavy);
    var c := Tagged(Heavy);
    HeavyShipIsValid(Heavy);
    assert Int32Add(m.currentWeight, c.grossWeight) == -2147483626;
    forall i | 0 <= i < |m.stacks|
      ensures !Holds(m.stacks[i], c.code)
    {
      if i < Heavy {
        assert m.stacks[i] == [Tagged(i)];
        assert |Tagged(i).code.text| != |c.code.text|;
      }
    }
    assert Accepts(m.stacks[Heavy], m.maxHeight, c.Kind());
  }
}
