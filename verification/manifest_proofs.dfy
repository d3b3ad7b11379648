/** Properties of the cargo manifest that relate several calls: the class
    invariant holds after construction and is kept by every load and unload,
    the queries find exactly the position a container occupies, a container
    can be unloaded exactly when it is on top of a stack, and unloading what
    was just loaded restores the manifest. */
module ManifestProofs {
  import opened Wrappers
  import opened Containers
  import opened Manifests

  // ---------------------------------------------------------------------
  // Weight bookkeeping
  // ---------------------------------------------------------------------

  /** Adding a container on top of a stack adds its weight. */
  lemma StackWeightPush(stack: Stack, c: Container)
    ensures StackWeight(stack + [c]) == StackWeight(stack) + c.grossWeight
  {
    assert (stack + [c])[..|stack|] == stack;
  }

  /** Replacing one stack changes the total by the difference of the two
      stack weights. */
  lemma {:induction false} TotalWeightUpdate(stacks: seq<Stack>, i: nat, s: Stack)
    requires i < |stacks|
    ensures TotalWeight(stacks[i := s]) == TotalWeight(stacks) - StackWeight(stacks[i]) + StackWeight(s)
    decreases |stacks|
  {
    var n := |stacks| - 1;
    var updated := stacks[i := s];
    if i == n {
      assert updated[..n] == stacks[..n];
    } else {
      assert updated[..n] == stacks[..n][i := s];
      TotalWeightUpdate(stacks[..n], i, s);
    }
  }

  /** Well-formed containers weigh at least the tare, so stacks never weigh
      less than nothing. */
  lemma {:induction false} StackWeightNonNegative(stack: Stack)
    ensures StackWeight(stack) >= 0
    decreases |stack|
  {
    if |stack| > 0 {
      StackWeightNonNegative(stack[..|stack| - 1]);
    }
  }

  // ---------------------------------------------------------------------
  // Construction
  // ---------------------------------------------------------------------

  /** A freshly constructed manifest satisfies the class invariant and
      reports the requested number of stacks. */
  lemma NewIsValid(numStacks: int, maxHeight: int, maxWeight: int)
    requires New(numStacks, maxHeight, maxWeight).Success?
    ensures Valid(New(numStacks, maxHeight, maxWeight).value)
    ensures NumStacks(New(numStacks, maxHeight, maxWeight).value) == numStacks
  {
    var m := New(numStacks, maxHeight, maxWeight).value;
    EmptyStacksWeighNothing(m.stacks);
  }

  lemma {:induction false} EmptyStacksWeighNothing(stacks: seq<Stack>)
    requires forall i | 0 <= i < |stacks| :: |stacks[i]| == 0
    ensures TotalWeight(stacks) == 0
    decreases |stacks|
  {
    if |stacks| > 0 {
      EmptyStacksWeighNothing(stacks[..|stacks| - 1]);
    }
  }

  // ---------------------------------------------------------------------
  // Load
  // ---------------------------------------------------------------------

  /** A successful load keeps codes unique: the duplicate check rules out
      the new container's code everywhere on board. */
  lemma LoadKeepsCodesUnique(m: CargoManifest, c: Container)
    requires UniqueCodes(m.stacks)
    ensures Load(m, c).outcome.Pass? ==> UniqueCodes(Load(m, c).after.stacks)
  {
    var r := Load(m, c);
    if r.outcome.Pass? {
      var i := FirstFit(m.stacks, m.maxHeight, c.Kind(), 0).value;
      var before := m.stacks[i];
      var stacks' := r.after.stacks;
      assert stacks' == m.stacks[i := before + [c]];
      // Every position of the new stacks holds either an old container or
      // the new one, which sits on top of stack i.
      forall a, b | 0 <= a < |stacks'| && 0 <= b < |stacks'[a]|
        ensures (a == i && b == |before|) ==> stacks'[a][b] == c
        ensures !(a == i && b == |before|) ==> b < |m.stacks[a]| && stacks'[a][b] == m.stacks[a][b]
      {
      }
      forall a, b | 0 <= a < |m.stacks| && 0 <= b < |m.stacks[a]|
        ensures m.stacks[a][b].code != c.code
      {
        if m.stacks[a][b].code == c.code {
          assert Holds(m.stacks[a], c.code);
        }
      }
    }
  }

  /** A successful load keeps stacks homogeneous and within the height limit:
      the container goes on an empty stack, or on a stack below the limit
      whose top has its variant. */
  lemma LoadKeepsStacksInShape(m: CargoManifest, c: Container)
    requires m.maxHeight > 0
    requires StacksInShape(m.stacks, m.maxHeight)
    ensures Load(m, c).outcome.Pass? ==> StacksInShape(Load(m, c).after.stacks, m.maxHeight)
  {
    var r := Load(m, c);
    if r.outcome.Pass? {
      var i := FirstFit(m.stacks, m.maxHeight, c.Kind(), 0).value;
      var before := m.stacks[i];
      var stacks' := r.after.stacks;
      forall a | 0 <= a < |stacks'|
        ensures Homogeneous(stacks'[a]) && |stacks'[a]| <= m.maxHeight
      {
        if a == i && |before| > 0 {
          assert before[|before| - 1].Kind() == c.Kind();
          assert before[|before| - 1].Kind() == before[0].Kind();
        }
      }
    }
  }

  /** A successful load keeps the cached weight equal to the true total, and
      the weight check keeps it within the limit. */
  lemma LoadKeepsWeightConsistent(m: CargoManifest, c: Container)
    requires WeightConsistent(m)
    ensures Load(m, c).outcome.Pass? ==> WeightConsistent(Load(m, c).after)
  {
    var r := Load(m, c);
    if r.outcome.Pass? {
      var i := FirstFit(m.stacks, m.maxHeight, c.Kind(), 0).value;
      var before := m.stacks[i];
      assert r.after.stacks == m.stacks[i := before + [c]];
      StackWeightPush(before, c);
      TotalWeightUpdate(m.stacks, i, before + [c]);
    }
  }

  /** A successful load keeps every part of the class invariant, and every
      load keeps the number of stacks. */
  lemma LoadPreservesValid(m: CargoManifest, c: Container)
    requires Valid(m)
    ensures Load(m, c).outcome.Pass? ==> Valid(Load(m, c).after)
    ensures NumStacks(Load(m, c).after) == NumStacks(m)
  {
    LoadKeepsCodesUnique(m, c);
    LoadKeepsStacksInShape(m, c);
    LoadKeepsWeightConsistent(m, c);
  }

  /** After a successful load the queries find the new container on top of
      the stack the placement rule chose. */
  lemma LoadPlacesOnTop(m: CargoManifest, c: Container)
    requires Valid(m)
    requires Load(m, c).outcome.Pass?
    ensures var i := FirstFit(m.stacks, m.maxHeight, c.Kind(), 0).value;
      && WhichStack(Load(m, c).after, c.code) == Some(i)
      && HowHigh(Load(m, c).after, c.code) == Some(|m.stacks[i]|)
  {
    var i := FirstFit(m.stacks, m.maxHeight, c.Kind(), 0).value;
    var after := Load(m, c).after;
    LoadPreservesValid(m, c);
    assert after.stacks[i][|m.stacks[i]|] == c;
    Locate(after, c.code, i, |m.stacks[i]|);
  }

  // ---------------------------------------------------------------------
  // Queries
  // ---------------------------------------------------------------------

  /** With unique codes, `whichStack` and `howHigh` report exactly the
      position where a code sits. */
  lemma Locate(m: CargoManifest, code: ContainerCode, i: nat, j: nat)
    requires UniqueCodes(m.stacks)
    requires i < |m.stacks| && j < |m.stacks[i]| && m.stacks[i][j].code == code
    ensures WhichStack(m, code) == Some(i)
    ensures HowHigh(m, code) == Some(j)
  {
    assert Holds(m.stacks[i], code);
    var s := WhichStack(m, code).value;
    assert Holds(m.stacks[s], code);
    var j' :| 0 <= j' < |m.stacks[s]| && m.stacks[s][j'].code == code;
    assert s == i;
    var h := HowHigh(m, code).value;
    assert m.stacks[s][h].code == code;
  }

  // ---------------------------------------------------------------------
  // Unload
  // ---------------------------------------------------------------------

  /** A successful unload keeps codes unique: every remaining container
      keeps its old position. */
  lemma UnloadKeepsCodesUnique(m: CargoManifest, code: ContainerCode)
    requires UniqueCodes(m.stacks)
    ensures Unload(m, code).outcome.Pass? ==> UniqueCodes(Unload(m, code).after.stacks)
  {
    var r := Unload(m, code);
    if r.outcome.Pass? {
      var s := WhichStack(m, code).value;
      var before := m.stacks[s];
      var stacks' := r.after.stacks;
      assert stacks'[s] == before[..|before| - 1];
      forall a, b | 0 <= a < |stacks'| && 0 <= b < |stacks'[a]|
        ensures b < |m.stacks[a]| && stacks'[a][b] == m.stacks[a][b]
      {
      }
    }
  }

  /** A successful unload keeps stacks homogeneous and within the height
      limit: one stack loses its top. */
  lemma UnloadKeepsStacksInShape(m: CargoManifest, code: ContainerCode)
    requires StacksInShape(m.stacks, m.maxHeight)
    ensures Unload(m, code).outcome.Pass? ==> StacksInShape(Unload(m, code).after.stacks, m.maxHeight)
  {
    var r := Unload(m, code);
    if r.outcome.Pass? {
      var s := WhichStack(m, code).value;
      var before := m.stacks[s];
      assert r.after.stacks[s] == before[..|before| - 1];
    }
  }

  /** A successful unload keeps the cached weight equal to the true total,
      and within the limit because a container never weighs less than its
      tare. */
  lemma UnloadKeepsWeightConsistent(m: CargoManifest, code: ContainerCode)
    requires WeightConsistent(m)
    ensures Unload(m, code).outcome.Pass? ==> WeightConsistent(Unload(m, code).after)
  {
    var r := Unload(m, code);
    if r.outcome.Pass? {
      var s := WhichStack(m, code).value;
      var before := m.stacks[s];
      var rest := r.after.stacks[s];
      assert rest == before[..|before| - 1];
      StackWeightNonNegative(rest);
      assert StackWeight(before) == StackWeight(rest) + before[|before| - 1].grossWeight;
      TotalWeightUpdate(m.stacks, s, rest);
      assert r.after.stacks == m.stacks[s := rest];
    }
  }

  /** A successful unload keeps every part of the class invariant, and every
      unload keeps the number of stacks. */
  lemma UnloadPreservesValid(m: CargoManifest, code: ContainerCode)
    requires Valid(m)
    ensures Unload(m, code).outcome.Pass? ==> Valid(Unload(m, code).after)
    ensures NumStacks(Unload(m, code).after) == NumStacks(m)
  {
    UnloadKeepsCodesUnique(m, code);
    UnloadKeepsStacksInShape(m, code);
    UnloadKeepsWeightConsistent(m, code);
  }

  /** With unique codes, a code can be unloaded exactly when its container is
      the top of some stack. */
  lemma UnloadSucceedsIffOnTop(m: CargoManifest, code: ContainerCode)
    requires UniqueCodes(m.stacks)
    ensures Unload(m, code).outcome.Pass? <==>
      exists i | 0 <= i < |m.stacks| :: |m.stacks[i]| > 0 && m.stacks[i][|m.stacks[i]| - 1].code == code
  {
    if i :| 0 <= i < |m.stacks| && |m.stacks[i]| > 0 && m.stacks[i][|m.stacks[i]| - 1].code == code {
      Locate(m, code, i, |m.stacks[i]| - 1);
    }
  }

  /** Unloading the container that was just loaded gives back the manifest
      as it was before the load. */
  lemma LoadThenUnloadRestores(m: CargoManifest, c: Container)
    requires Valid(m)
    requires Load(m, c).outcome.Pass?
    ensures Unload(Load(m, c).after, c.code) == Step(m, Pass)
  {
    var i := FirstFit(m.stacks, m.maxHeight, c.Kind(), 0).value;
    var after := Load(m, c).after;
    LoadPlacesOnTop(m, c);
    var r := Unload(after, c.code);
    assert r.outcome.Pass?;
    assert r.after.stacks[i] == m.stacks[i];
    assert r.after.stacks == m.stacks;
  }
}
