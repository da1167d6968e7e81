/** The trimming loop over prompt sections (`PriorityTrimmer.trim` in app/context_window/trimmer.py). */
module SectionTrim {
  import opened Outcomes
  import opened Trimmer
  import opened TrimSpec

  // ------------------------------------------------------------------ the order

  // The trimmable ones among the first n sections, each once, in the order they are trimmed.
  ghost predicate IsOrder(sections: seq<Section>, n: nat, order: seq<nat>)
    requires n <= |sections|
  {
    && (forall a :: 0 <= a < |order| ==> order[a] < n && Trimmable(sections[order[a]]))
    && (forall a, b :: 0 <= a < b < |order| ==> Before(sections, order[a], order[b]))
    && (forall j: nat :: j < n && Trimmable(sections[j]) ==> exists a :: 0 <= a < |order| && order[a] == j)
  }

  // Inserts an index larger than all in the order after those of the same priority.
  function Place(sections: seq<Section>, order: seq<nat>, j: nat): (r: seq<nat>)
    requires j < |sections| && forall a :: 0 <= a < |order| ==> order[a] < |sections|
    ensures |r| == |order| + 1
  {
    if order == [] || sections[order[|order| - 1]].priority <= sections[j].priority then order + [j]
    else Place(sections, order[..|order| - 1], j) + [order[|order| - 1]]
  }

  // r is the order with j put in at position `at`.
  ghost predicate Inserted(order: seq<nat>, r: seq<nat>, at: nat, j: nat) {
    && |r| == |order| + 1 && at <= |order| && r[at] == j
    && (forall a :: 0 <= a < at ==> r[a] == order[a])
    && (forall a {:trigger r[a]} :: at < a < |r| ==> r[a] == order[a - 1])
  }

  // Where the new index lands, and that the others keep their sequence around it.
  lemma {:induction false} PlaceIsInsertion(sections: seq<Section>, order: seq<nat>, j: nat) returns (at: nat)
    requires j < |sections| && forall a :: 0 <= a < |order| ==> order[a] < |sections|
    ensures Inserted(order, Place(sections, order, j), at, j)
    ensures at > 0 ==> sections[order[at - 1]].priority <= sections[j].priority
    ensures forall a :: at <= a < |order| ==> sections[j].priority < sections[order[a]].priority
  {
    if order == [] || sections[order[|order| - 1]].priority <= sections[j].priority {
      at := |order|;
    } else {
      at := PlaceIsInsertion(sections, order[..|order| - 1], j);
    }
  }

  lemma PlacedPair(sections: seq<Section>, n: nat, order: seq<nat>, r: seq<nat>, at: nat, a: nat, b: nat)
    requires n < |sections| && IsOrder(sections, n, order) && Inserted(order, r, at, n) && a < b < |r|
    requires at > 0 ==> sections[order[at - 1]].priority <= sections[n].priority
    requires forall c :: at <= c < |order| ==> sections[n].priority < sections[order[c]].priority
    ensures r[a] <= n && r[b] <= n && Before(sections, r[a], r[b])
  {
    if b == at {
      assert a < at - 1 ==> Before(sections, order[a], order[at - 1]);
    } else if a != at {
      assert Before(sections, order[if a < at then a else a - 1], order[if b < at then b else b - 1]);
    }
  }

  lemma PlaceKeepsOrder(sections: seq<Section>, n: nat, order: seq<nat>)
    requires n < |sections| && IsOrder(sections, n, order) && Trimmable(sections[n])
    ensures IsOrder(sections, n + 1, Place(sections, order, n))
  {
    var r := Place(sections, order, n);
    var at := PlaceIsInsertion(sections, order, n);
    forall a, b | 0 <= a < b < |r|
      ensures r[a] <= n && r[b] <= n && Before(sections, r[a], r[b])
    {
      PlacedPair(sections, n, order, r, at, a, b);
    }
    PlacedCovers(sections, n, order, r, at);
  }

  lemma PlacedCovers(sections: seq<Section>, n: nat, order: seq<nat>, r: seq<nat>, at: nat)
    requires n < |sections| && Inserted(order, r, at, n)
    requires forall j: nat :: j < n && Trimmable(sections[j]) ==> exists a :: 0 <= a < |order| && order[a] == j
    ensures forall j: nat :: j < n + 1 && Trimmable(sections[j]) ==> exists a :: 0 <= a < |r| && r[a] == j
  {
    forall j: nat | j < n && Trimmable(sections[j])
      ensures exists a :: 0 <= a < |r| && r[a] == j
    {
      var a :| 0 <= a < |order| && order[a] == j;
      assert r[if a < at then a else a + 1] == j;
    }
  }

  function TrimOrder(sections: seq<Section>, n: nat): (order: seq<nat>)
    requires n <= |sections|
    ensures forall a :: 0 <= a < |order| ==> order[a] < n
  {
    if n == 0 then []
    else
      var earlier := TrimOrder(sections, n - 1);
      if Trimmable(sections[n - 1]) then
        PlaceBound(sections, earlier, n - 1);
        Place(sections, earlier, n - 1)
      else earlier
  }

  lemma PlaceBound(sections: seq<Section>, order: seq<nat>, j: nat)
    requires j < |sections| && forall a :: 0 <= a < |order| ==> order[a] < j
    ensures forall a :: 0 <= a < |order| + 1 ==> Place(sections, order, j)[a] <= j
  {
    var at := PlaceIsInsertion(sections, order, j);
  }

  lemma {:induction false} TrimOrderIsSorted(sections: seq<Section>, n: nat)
    requires n <= |sections|
    ensures IsOrder(sections, n, TrimOrder(sections, n))
  {
    if n > 0 {
      TrimOrderIsSorted(sections, n - 1);
      OneMoreInOrder(sections, n, TrimOrder(sections, n - 1), TrimOrder(sections, n));
    }
  }

  lemma OneMoreInOrder(sections: seq<Section>, n: nat, earlier: seq<nat>, order: seq<nat>)
    requires 0 < n <= |sections| && IsOrder(sections, n - 1, earlier)
    requires order == if Trimmable(sections[n - 1]) then Place(sections, earlier, n - 1) else earlier
    ensures IsOrder(sections, n, order)
  {
    if Trimmable(sections[n - 1]) {
      PlaceKeepsOrder(sections, n - 1, earlier);
    }
  }

  // ------------------------------------------------------------------ the loop

  lemma OthersDiffer(sections: seq<Section>, n: nat, order: seq<nat>, at: nat)
    requires n <= |sections| && IsOrder(sections, n, order) && at < |order|
    ensures forall a :: 0 <= a < |order| && a != at ==> order[a] != order[at]
  {
    forall a | 0 <= a < |order| && a != at
      ensures order[a] != order[at]
    {
      assert if a < at then Before(sections, order[a], order[at]) else Before(sections, order[at], order[a]);
    }
  }

  // While the loop runs: `done` sections of the order were asked, and `excess` is still to be asked for.
  ghost predicate Asking(sections: seq<Section>, working: seq<Section>, order: seq<nat>, done: nat, targets: seq<int>,
                         excess: int, budget: int)
    requires IsOrder(sections, |sections|, order) && done <= |order|
  {
    && |working| == |sections| == |targets|
    && (forall j :: 0 <= j < |sections| ==> AskedOf(sections[j], working[j], targets[j]))
    && Sum(targets) == budget + excess && excess >= 0
    && (forall a :: done <= a < |order| ==> targets[order[a]] == sections[order[a]].tokenCount)
    && (excess > 0 ==> forall a :: 0 <= a < done ==> targets[order[a]] == Floor(sections[order[a]]))
    && (forall a, b :: 0 <= a < b < |order| && targets[order[b]] < sections[order[b]].tokenCount
          ==> targets[order[a]] == Floor(sections[order[a]]))
  }

  // Asking section order[done] touches no other section's part of the account.
  lemma OthersKept(sections: seq<Section>, working: seq<Section>, order: seq<nat>, done: nat, targets: seq<int>,
                   excess: int, budget: int, target: int)
    requires IsOrder(sections, |sections|, order) && done < |order|
    requires Asking(sections, working, order, done, targets, excess, budget) && excess > 0
    ensures var asked := targets[order[done] := target];
            && (forall a :: 0 <= a < |order| && a != done ==> asked[order[a]] == targets[order[a]])
            && (forall a :: done < a < |order| ==> asked[order[a]] == sections[order[a]].tokenCount)
            && (forall a :: 0 <= a < done ==> asked[order[a]] == Floor(sections[order[a]]))
  {
    OthersDiffer(sections, |sections|, order, done);
  }

  lemma AskedInPlace(sections: seq<Section>, working: seq<Section>, targets: seq<int>, idx: nat, cut: Section,
                     target: int)
    requires idx < |sections| == |working| == |targets| && AskedOf(sections[idx], cut, target)
    requires forall j :: 0 <= j < |sections| ==> AskedOf(sections[j], working[j], targets[j])
    ensures forall j :: 0 <= j < |sections| ==> AskedOf(sections[j], working[idx := cut][j], targets[idx := target][j])
  {
  }

  lemma AskNext(sections: seq<Section>, working: seq<Section>, order: seq<nat>, done: nat, targets: seq<int>,
                excess: int, budget: int, target: int, cut: Section)
    requires IsOrder(sections, |sections|, order) && done < |order|
    requires Asking(sections, working, order, done, targets, excess, budget) && excess > 0
    requires var sec := sections[order[done]];
             && AskedOf(sec, cut, target) && sec.tokenCount - target <= excess
             && (sec.tokenCount - target < excess ==> target == Floor(sec))
    ensures Asking(sections, working[order[done] := cut], order, done + 1, targets[order[done] := target],
                   excess - (sections[order[done]].tokenCount - target), budget)
  {
    OthersKept(sections, working, order, done, targets, excess, budget, target);
    AskedInPlace(sections, working, targets, order[done], cut, target);
    SumUpdate(targets, order[done], target);
  }

  lemma AskedForAll(sections: seq<Section>, working: seq<Section>, order: seq<nat>, done: nat, targets: seq<int>,
                    excess: int, budget: int)
    requires IsOrder(sections, |sections|, order) && done <= |order|
    requires Asking(sections, working, order, done, targets, excess, budget)
    requires excess == 0 || done == |order|
    ensures Sum(targets) == if Demand(sections) > budget then Demand(sections) else budget
  {
    forall j | 0 <= j < |sections|
      ensures Floor(sections[j]) <= targets[j] && (excess > 0 ==> targets[j] == Floor(sections[j]))
    {
      AskedBelow(sections[j], working[j], targets[j]);
      if excess > 0 && Trimmable(sections[j]) {
        var a :| 0 <= a < |order| && order[a] == j;
      }
    }
    SumAtLeastDemand(sections, targets);
  }

  lemma AskedInOrder(sections: seq<Section>, working: seq<Section>, order: seq<nat>, done: nat, targets: seq<int>,
                     excess: int, budget: int, j: nat, k: nat)
    requires IsOrder(sections, |sections|, order) && done <= |order|
    requires Asking(sections, working, order, done, targets, excess, budget)
    requires j < |sections| && k < |sections| && targets[k] < sections[k].tokenCount
    requires Trimmable(sections[j]) && Before(sections, j, k)
    ensures targets[j] == Floor(sections[j])
  {
    AskedBelow(sections[k], working[k], targets[k]);
    var a :| 0 <= a < |order| && order[a] == j;
    var b :| 0 <= b < |order| && order[b] == k;
    assert b < a ==> Before(sections, order[b], order[a]);
  }

  lemma AskedExactly(sections: seq<Section>, working: seq<Section>, order: seq<nat>, done: nat, targets: seq<int>,
                     excess: int, budget: int)
    requires IsOrder(sections, |sections|, order) && done <= |order|
    requires Asking(sections, working, order, done, targets, excess, budget)
    requires excess == 0 || done == |order|
    ensures AsksExactly(sections, working, targets, budget)
  {
    AskedForAll(sections, working, order, done, targets, excess, budget);
    forall j, k | 0 <= j < |sections| && 0 <= k < |sections| && targets[k] < sections[k].tokenCount
                  && Trimmable(sections[j]) && Before(sections, j, k)
      ensures targets[j] == Floor(sections[j])
    {
      AskedInOrder(sections, working, order, done, targets, excess, budget, j, k);
    }
  }

  lemma NameAdded(sections: seq<Section>, working: seq<Section>, names: seq<Name>, idx: nat, cut: Section, target: int)
    requires |working| == |sections| && idx < |sections| && NamesTheCut(sections, working, names)
    requires CutTo(sections[idx], cut, target)
    ensures var n := sections[idx].name;
            NamesTheCut(sections, working[idx := cut], if n in names then names else names + [n])
  {
    var n := sections[idx].name;
    NamesStayCut(sections, working, names, idx, cut, target);
    ChangesNamed(sections, working, names, idx, cut);
    NameOnce(names, n);
  }

  lemma NameOnce(names: seq<Name>, n: Name)
    requires forall a, b :: 0 <= a < b < |names| ==> names[a] != names[b]
    ensures var longer := if n in names then names else names + [n];
            && (forall m :: m in longer <==> m in names || m == n)
            && (forall a, b :: 0 <= a < b < |longer| ==> longer[a] != longer[b])
  {
  }

  lemma ChangesNamed(sections: seq<Section>, working: seq<Section>, names: seq<Name>, idx: nat, cut: Section)
    requires |working| == |sections| && idx < |sections|
    requires forall j :: 0 <= j < |sections| && working[j] != sections[j] ==> sections[j].name in names
    ensures var updated := working[idx := cut];
            forall j :: 0 <= j < |sections| && updated[j] != sections[j]
                        ==> sections[j].name in names || sections[j].name == sections[idx].name
  {
  }

  lemma NamesStayCut(sections: seq<Section>, working: seq<Section>, names: seq<Name>, idx: nat, cut: Section,
                     target: int)
    requires |working| == |sections| && idx < |sections| && forall n :: n in names ==> WasCut(sections, working, n)
    requires CutTo(sections[idx], cut, target)
    ensures forall n :: n in names || n == sections[idx].name ==> WasCut(sections, working[idx := cut], n)
  {
    var updated := working[idx := cut];
    assert CutTo(sections[idx], updated[idx], target);
    forall n | n in names && n != sections[idx].name
      ensures WasCut(sections, updated, n)
    {
      var j, t :| 0 <= j < |sections| && sections[j].name == n && CutTo(sections[j], working[j], t);
      assert CutTo(sections[j], updated[j], t);
    }
  }

  // One turn of the loop: takes from the next section what it can give.
  method TrimNext(ghost sections: seq<Section>, working: seq<Section>, order: seq<nat>, done: nat, excess: int,
                  ghost budget: int, names: seq<Name>, ghost targets: seq<int>)
    returns (working': seq<Section>, excess': int, names': seq<Name>, ghost targets': seq<int>)
    requires IsOrder(sections, |sections|, order) && done < |order| && excess > 0
    requires Asking(sections, working, order, done, targets, excess, budget) && NamesTheCut(sections, working, names)
    ensures Asking(sections, working', order, done + 1, targets', excess', budget)
    ensures NamesTheCut(sections, working', names')
  {
    var idx := order[done];
    var sec := working[idx];
    assert sec == sections[idx];
    var minAllowed := Minimum(sec.name);
    if sec.tokenCount <= minAllowed {
      AskNext(sections, working, order, done, targets, excess, budget, sec.tokenCount, sec);
      assert working[idx := sec] == working && targets[idx := sec.tokenCount] == targets;
      return working, excess, names, targets;
    }
    var canTrim := sec.tokenCount - minAllowed;
    var actualTrim := if canTrim < excess then canTrim else excess;
    var targetTokens := sec.tokenCount - actualTrim;
    var cut := ShrinkSection(sec, targetTokens);
    assert CutTo(sec, cut, targetTokens);
    NameAdded(sections, working, names, idx, cut, targetTokens);
    AskNext(sections, working, order, done, targets, excess, budget, targetTokens, cut);
    targets' := targets[idx := targetTokens];
    working' := working[idx := cut];
    excess' := excess - actualTrim;
    names' := if sec.name in names then names else names + [sec.name];
  }

  /** Trimming to a budget. The loop over the sections by ascending priority asks of them exactly what the specification
      says, and the result is what is left of them, or an overflow with its size. */
  method Trim(sections: seq<Section>, budget: int) returns (r: Trimmed, ghost working: seq<Section>,
              ghost targets: seq<int>)
    ensures IsTrim(sections, budget, working, targets, r)
    ensures Total(sections) <= budget ==> r == Fits(sections, [])
    ensures if r.Fits? then Total(r.sections) <= budget else r.total > budget
  {
    working, targets := sections, Counts(sections);
    var currentTotal := Total(sections);
    if currentTotal <= budget {
      return Fits(sections, []), working, targets;
    }
    var excess := currentTotal - budget;
    var current := sections;
    var names: seq<Name> := [];
    var order := TrimOrder(sections, |sections|);
    TrimOrderIsSorted(sections, |sections|);
    var done := 0;
    SumOfCounts(sections);
    while done < |order| && excess > 0
      invariant 0 <= done <= |order| && current == working
      invariant Asking(sections, working, order, done, targets, excess, budget)
      invariant NamesTheCut(sections, working, names)
      decreases |order| - done
    {
      current, excess, names, targets := TrimNext(sections, current, order, done, excess, budget, names, targets);
      working := current;
      done := done + 1;
    }
    var final := NonBlank(current);
    AskedExactly(sections, working, order, done, targets, excess, budget);
    if Total(final) > budget {
      return ContextOverflow(Total(final)), working, targets;
    }
    r := Fits(final, names);
  }
}
