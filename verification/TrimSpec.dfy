/** What trimming prompt sections to a budget means (`PriorityTrimmer.trim` in app/context_window/trimmer.py),
    without the loop: how much is asked of each section, that there is only one way to ask it, and when the result
    does not fit. */
module TrimSpec {
  import opened Outcomes
  import opened Text
  import opened TokenCounter
  import opened Trimmer

  function Total(sections: seq<Section>): nat {
    if sections == [] then 0 else Total(sections[..|sections| - 1]) + sections[|sections| - 1].tokenCount
  }

  predicate Trimmable(sec: Section) { sec.trimmable && sec.priority < 10 }

  function Least(a: nat, b: nat): nat { if a < b then a else b }

  // What a section cannot be trimmed below: its size when locked, else the floor of its kind.
  function Floor(sec: Section): nat {
    if Trimmable(sec) then Least(sec.tokenCount, Minimum(sec.name)) else sec.tokenCount
  }

  // The least the sections can need.
  function Demand(sections: seq<Section>): nat {
    if sections == [] then 0 else Demand(sections[..|sections| - 1]) + Floor(sections[|sections| - 1])
  }

  function NonBlank(sections: seq<Section>): seq<Section> {
    if sections == [] then []
    else NonBlank(sections[..|sections| - 1])
         + if Blank(sections[|sections| - 1].content) then [] else [sections[|sections| - 1]]
  }

  // Lower priority first; the sort is stable, so equal priorities keep their position.
  ghost predicate Before(sections: seq<Section>, a: nat, b: nat)
    requires a < |sections| && b < |sections|
  {
    sections[a].priority < sections[b].priority || (sections[a].priority == sections[b].priority && a < b)
  }

  datatype Trimmed = Fits(sections: seq<Section>, names: seq<Name>) | ContextOverflow(total: nat)

  // Working section j is the input section, or the input section shrunk to some target of at least its floor.
  ghost predicate CutTo(sec: Section, cut: Section, target: int) {
    && Trimmable(sec) && Least(sec.tokenCount, Minimum(sec.name)) <= target < sec.tokenCount
    && cut == Shrunk(sec, target)
  }

  ghost predicate Derived(sec: Section, cut: Section) {
    cut == sec || exists target :: CutTo(sec, cut, target)
  }

  // ------------------------------------------------------------------ what is asked of each section

  function Sum(targets: seq<int>): int {
    if targets == [] then 0 else Sum(targets[..|targets| - 1]) + targets[|targets| - 1]
  }

  lemma {:induction false} SumUpdate(targets: seq<int>, i: nat, t: int)
    requires i < |targets|
    ensures Sum(targets[i := t]) == Sum(targets) - targets[i] + t
  {
    var updated := targets[i := t];
    if i < |targets| - 1 {
      assert updated[..|updated| - 1] == targets[..|targets| - 1][i := t];
      SumUpdate(targets[..|targets| - 1], i, t);
    } else {
      assert updated[..|updated| - 1] == targets[..|targets| - 1];
    }
  }

  // Nothing was asked of the section, or it was cut to the target.
  ghost predicate AskedOf(sec: Section, cut: Section, target: int) {
    if target == sec.tokenCount then cut == sec else CutTo(sec, cut, target)
  }

  /** The declarative reading of a trim: each section is left alone or cut to its target, the targets add up to the
      budget, or to the least the sections can need if that is more, and nothing is asked of a section before every
      trimmable one of lower priority has been asked for all it can give. */
  ghost predicate AsksExactly(sections: seq<Section>, working: seq<Section>, targets: seq<int>, budget: int) {
    && |working| == |sections| == |targets|
    && (forall j :: 0 <= j < |sections| ==> AskedOf(sections[j], working[j], targets[j]))
    && Sum(targets) == (if Demand(sections) > budget then Demand(sections) else budget)
    && forall j, k :: 0 <= j < |sections| && 0 <= k < |sections| && targets[k] < sections[k].tokenCount
                      && Trimmable(sections[j]) && Before(sections, j, k)
         ==> targets[j] == Floor(sections[j])
  }

  lemma {:induction false} SumMonotone(small: seq<int>, large: seq<int>)
    requires |small| == |large| && forall j :: 0 <= j < |small| ==> small[j] <= large[j]
    ensures Sum(small) <= Sum(large)
    ensures Sum(small) == Sum(large) ==> small == large
  {
    if small != [] {
      var n := |small| - 1;
      SumMonotone(small[..n], large[..n]);
      assert small == small[..n] + [small[n]] && large == large[..n] + [large[n]];
    }
  }

  // Targets within their sections, the lowest priorities asked first.
  ghost predicate ByPriority(sections: seq<Section>, targets: seq<int>) {
    && |targets| == |sections|
    && (forall j :: 0 <= j < |sections| ==> Floor(sections[j]) <= targets[j] <= sections[j].tokenCount)
    && (forall j :: 0 <= j < |sections| && targets[j] < sections[j].tokenCount ==> Trimmable(sections[j]))
    && forall j, k :: 0 <= j < |sections| && 0 <= k < |sections| && targets[k] < sections[k].tokenCount
                      && Trimmable(sections[j]) && Before(sections, j, k)
         ==> targets[j] == Floor(sections[j])
  }

  lemma AskedByPriority(sections: seq<Section>, working: seq<Section>, targets: seq<int>, budget: int)
    requires AsksExactly(sections, working, targets, budget)
    ensures ByPriority(sections, targets)
  {
    forall j | 0 <= j < |sections|
      ensures Floor(sections[j]) <= targets[j] <= sections[j].tokenCount
      ensures targets[j] < sections[j].tokenCount ==> Trimmable(sections[j])
    {
      AskedBelow(sections[j], working[j], targets[j]);
    }
  }

  // Two ways to ask cannot differ in both directions: whichever section comes first would be at its floor in one of
  // them.
  lemma NotBothWays(sections: seq<Section>, targets: seq<int>, targets': seq<int>, j: nat, k: nat)
    requires ByPriority(sections, targets) && ByPriority(sections, targets') && j < |sections| && k < |sections|
    ensures targets'[j] <= targets[j] || targets[k] <= targets'[k]
  {
    assert j == k || Before(sections, j, k) || Before(sections, k, j);
  }

  /** There is only one such trim: the priorities and the budget determine every target, and with it every section. */
  lemma AskIsUnique(sections: seq<Section>, working: seq<Section>, targets: seq<int>,
                    working': seq<Section>, targets': seq<int>, budget: int)
    requires AsksExactly(sections, working, targets, budget) && AsksExactly(sections, working', targets', budget)
    ensures targets' == targets && working' == working
  {
    AskedByPriority(sections, working, targets, budget);
    AskedByPriority(sections, working', targets', budget);
    if j :| 0 <= j < |sections| && targets[j] < targets'[j] {
      forall k | 0 <= k < |sections|
        ensures targets[k] <= targets'[k]
      {
        NotBothWays(sections, targets, targets', j, k);
      }
      SumMonotone(targets, targets');
    } else {
      SumMonotone(targets', targets);
    }
    assert forall j :: 0 <= j < |sections| ==> AskedOf(sections[j], working'[j], targets[j]);
  }

  lemma AskedBelow(sec: Section, cut: Section, target: int)
    requires AskedOf(sec, cut, target)
    ensures Floor(sec) <= target <= sec.tokenCount
    ensures target < sec.tokenCount ==> Trimmable(sec)
  {
  }

  lemma {:induction false} SumAtLeastDemand(sections: seq<Section>, targets: seq<int>)
    requires |targets| == |sections| && forall j :: 0 <= j < |sections| ==> Floor(sections[j]) <= targets[j]
    ensures Demand(sections) <= Sum(targets)
    ensures (forall j :: 0 <= j < |sections| ==> Floor(sections[j]) == targets[j]) ==> Demand(sections) == Sum(targets)
  {
    if sections != [] {
      SumAtLeastDemand(sections[..|sections| - 1], targets[..|sections| - 1]);
    }
  }

  // The reported names: of every section that changed, and only of sections that were cut, each once.
  ghost predicate NamesTheCut(sections: seq<Section>, working: seq<Section>, names: seq<Name>)
    requires |working| == |sections|
  {
    && (forall j :: 0 <= j < |sections| && working[j] != sections[j] ==> sections[j].name in names)
    && (forall n :: n in names ==> WasCut(sections, working, n))
    && (forall a, b :: 0 <= a < b < |names| ==> names[a] != names[b])
  }

  ghost predicate WasCut(sections: seq<Section>, working: seq<Section>, n: Name)
    requires |working| == |sections|
  {
    exists j, target :: 0 <= j < |sections| && sections[j].name == n && CutTo(sections[j], working[j], target)
  }

  /** What a trim returns. A prompt within the budget is unchanged; otherwise it is what exactly the right cuts
      leave without the blank sections, or an overflow with its size if that is still more than the budget. */
  ghost predicate IsTrim(sections: seq<Section>, budget: int, working: seq<Section>, targets: seq<int>, r: Trimmed) {
    if Total(sections) <= budget then r == Fits(sections, [])
    else
      && AsksExactly(sections, working, targets, budget)
      && if Total(NonBlank(working)) > budget then r == ContextOverflow(Total(NonBlank(working)))
         else r.Fits? && r.sections == NonBlank(working) && NamesTheCut(sections, working, r.names)
  }

  ghost predicate TrimsTo(sections: seq<Section>, budget: int, r: Trimmed) {
    exists working, targets :: IsTrim(sections, budget, working, targets, r)
  }

  /** A trim is determined by its sections and its budget, up to the order of the reported names. */
  lemma TrimIsUnique(sections: seq<Section>, budget: int, working: seq<Section>, targets: seq<int>, r: Trimmed,
                     working': seq<Section>, targets': seq<int>, r': Trimmed)
    requires IsTrim(sections, budget, working, targets, r) && IsTrim(sections, budget, working', targets', r')
    ensures r.Fits? <==> r'.Fits?
    ensures if r.Fits? then r'.sections == r.sections else r' == r
  {
    if Total(sections) > budget {
      AskIsUnique(sections, working, targets, working', targets', budget);
    }
  }

  // ------------------------------------------------------------------ priority order

  // Sections are cut strictly in priority order: whatever comes before a cut section is at its floor already.
  ghost predicate CutInOrder(sections: seq<Section>, working: seq<Section>) {
    && |working| == |sections|
    && (forall j :: 0 <= j < |sections| ==> Derived(sections[j], working[j]))
    && (forall j, k :: 0 <= j < |sections| && 0 <= k < |sections| && working[k] != sections[k]
                       && Trimmable(sections[j]) && Before(sections, j, k)
          ==> working[j].tokenCount <= Floor(sections[j]))
  }

  /** Exactly the right cuts are cuts in priority order, by the sizes they leave and not only by what was asked. */
  lemma AskedCutInOrder(sections: seq<Section>, working: seq<Section>, targets: seq<int>, budget: int)
    requires AsksExactly(sections, working, targets, budget)
    ensures CutInOrder(sections, working)
  {
    forall j | 0 <= j < |sections|
      ensures Derived(sections[j], working[j])
      ensures targets[j] == Floor(sections[j]) ==> working[j].tokenCount <= Floor(sections[j])
      ensures working[j] != sections[j] ==> targets[j] < sections[j].tokenCount
    {
      AskedIsDerived(sections[j], working[j], targets[j]);
    }
  }

  lemma AskedIsDerived(sec: Section, cut: Section, target: int)
    requires AskedOf(sec, cut, target)
    ensures Derived(sec, cut)
    ensures target == Floor(sec) ==> cut.tokenCount <= target
    ensures cut != sec ==> target < sec.tokenCount
  {
    AskedBelow(sec, cut, target);
    if target != sec.tokenCount {
      ShrunkFits(sec, target);
    }
  }

  // What the locked sections take that are not blank.
  function LockedTotal(sections: seq<Section>): nat {
    if sections == [] then 0
    else
      var last := sections[|sections| - 1];
      LockedTotal(sections[..|sections| - 1]) + if Trimmable(last) || Blank(last.content) then 0 else last.tokenCount
  }

  /** Locked sections are never given up: whatever was cut, the result is at least as large as they are. */
  lemma {:induction false} LockedStay(sections: seq<Section>, working: seq<Section>)
    requires |working| == |sections| && forall j :: 0 <= j < |sections| ==> Derived(sections[j], working[j])
    ensures LockedTotal(sections) <= Total(NonBlank(working))
  {
    if sections != [] {
      var n := |sections| - 1;
      LockedStay(sections[..n], working[..n]);
      var kept := NonBlank(working[..n]);
      assert Derived(sections[n], working[n]);
      assert (kept + [working[n]])[..|kept|] == kept && kept + [] == kept;
    }
  }

  // ------------------------------------------------------------------ the sizes that cuts leave

  // What a section counts in the result: nothing when it is blank.
  function Measured(sec: Section): nat { if Blank(sec.content) then 0 else sec.tokenCount }

  function Measures(sections: seq<Section>): (r: seq<int>)
    ensures |r| == |sections| && forall j :: 0 <= j < |r| ==> r[j] == Measured(sections[j])
  {
    seq(|sections|, j requires 0 <= j < |sections| => Measured(sections[j]))
  }

  lemma {:induction false} NonBlankIsMeasured(sections: seq<Section>)
    ensures Total(NonBlank(sections)) == Sum(Measures(sections))
  {
    if sections != [] {
      var n := |sections| - 1;
      NonBlankIsMeasured(sections[..n]);
      var kept := NonBlank(sections[..n]);
      assert (kept + [sections[n]])[..|kept|] == kept && kept + [] == kept;
      assert Measures(sections)[..n] == Measures(sections[..n]);
    }
  }

  // The section cut to a target, or left alone when that is its size.
  function CutDown(sec: Section, target: int): Section { if target == sec.tokenCount then sec else Shrunk(sec, target) }

  // Only a cut to one token can leave more than was asked for, and then one token more.
  lemma MeasuredWithin(sec: Section, cut: Section, target: int)
    requires AskedOf(sec, cut, target)
    ensures cut == CutDown(sec, target)
    ensures Measured(cut) <= if target == 1 && 1 < sec.tokenCount then 2 else target
  {
    AskedBelow(sec, cut, target);
    if target != sec.tokenCount {
      ShrunkFits(sec, target);
    }
  }

  // ------------------------------------------------------------------ the section that is asked for one token

  // What is asked of the other sections when section j is the last one that is cut.
  ghost function RestOf(sections: seq<Section>, j: nat): (r: seq<int>)
    requires j < |sections|
    ensures |r| == |sections| && r[j] == 0
  {
    seq(|sections|, i requires 0 <= i < |sections| =>
      if i == j then 0
      else if Trimmable(sections[i]) && Before(sections, i, j) then Floor(sections[i])
      else sections[i].tokenCount)
  }

  // Section j can be cut to nothing, and exactly one token is left for it.
  ghost predicate LeavesOneFor(sections: seq<Section>, budget: int, j: nat)
    requires j < |sections|
  {
    && Trimmable(sections[j]) && Minimum(sections[j].name) == 0 && sections[j].tokenCount > 1
    && Sum(RestOf(sections, j)) + 1 == budget
  }

  lemma LastCut(sections: seq<Section>, targets: seq<int>, j: nat)
    requires ByPriority(sections, targets) && j < |sections| && targets[j] == 1 < sections[j].tokenCount
    ensures targets == RestOf(sections, j)[j := 1]
  {
    var rest := RestOf(sections, j)[j := 1];
    forall i | 0 <= i < |sections|
      ensures targets[i] == rest[i]
    {
      assert i == j || Before(sections, i, j) || Before(sections, j, i);
    }
  }

  lemma LastCutSum(sections: seq<Section>, working: seq<Section>, targets: seq<int>, budget: int, j: nat)
    requires AsksExactly(sections, working, targets, budget) && j < |sections|
    requires targets[j] == 1 < sections[j].tokenCount
    ensures Sum(targets) == budget && LeavesOneFor(sections, budget, j) && targets == RestOf(sections, j)[j := 1]
  {
    AskedByPriority(sections, working, targets, budget);
    LastCut(sections, targets, j);
    SumUpdate(RestOf(sections, j), j, 1);
    assert AskedOf(sections[j], working[j], 1);
    if Demand(sections) > budget {
      AllAtFloor(sections, targets);
    }
  }

  // Targets that add up to the least the sections can need are the floors.
  lemma AllAtFloor(sections: seq<Section>, targets: seq<int>)
    requires ByPriority(sections, targets) && Sum(targets) == Demand(sections)
    ensures targets == Floors(sections)
  {
    SumAtLeastDemand(sections, Floors(sections));
    SumMonotone(Floors(sections), targets);
  }

  function Floors(sections: seq<Section>): (r: seq<int>)
    ensures |r| == |sections| && forall j :: 0 <= j < |r| ==> r[j] == Floor(sections[j])
  {
    seq(|sections|, j requires 0 <= j < |sections| => Floor(sections[j]))
  }

  ghost function CutsDown(sections: seq<Section>, targets: seq<int>): (r: seq<Section>)
    requires |targets| == |sections|
    ensures |r| == |sections| && forall j :: 0 <= j < |r| ==> r[j] == CutDown(sections[j], targets[j])
  {
    seq(|sections|, j requires 0 <= j < |sections| => CutDown(sections[j], targets[j]))
  }

  lemma LeftOneIsAsked(sections: seq<Section>, budget: int, j: nat)
    requires j < |sections| && LeavesOneFor(sections, budget, j)
    ensures var targets := RestOf(sections, j)[j := 1];
            AsksExactly(sections, CutsDown(sections, targets), targets, budget)
  {
    var targets := RestOf(sections, j)[j := 1];
    SumUpdate(RestOf(sections, j), j, 1);
    forall i | 0 <= i < |sections|
      ensures AskedOf(sections[i], CutDown(sections[i], targets[i]), targets[i]) && Floor(sections[i]) <= targets[i]
    {
    }
    SumAtLeastDemand(sections, targets);
  }

  /** Which section is asked for a single token, from the sections and the budget alone: at most the one that the
      rest leaves exactly one token for. */
  lemma AskedForOneIff(sections: seq<Section>, working: seq<Section>, targets: seq<int>, budget: int, j: nat)
    requires AsksExactly(sections, working, targets, budget) && j < |sections|
    ensures targets[j] == 1 < sections[j].tokenCount <==> LeavesOneFor(sections, budget, j)
    ensures LeavesOneFor(sections, budget, j) ==> targets == RestOf(sections, j)[j := 1]
  {
    if targets[j] == 1 < sections[j].tokenCount {
      LastCutSum(sections, working, targets, budget, j);
    } else if LeavesOneFor(sections, budget, j) {
      LeftOneIsAsked(sections, budget, j);
      var asked := RestOf(sections, j)[j := 1];
      AskIsUnique(sections, working, targets, CutsDown(sections, asked), asked, budget);
    }
  }

  // ------------------------------------------------------------------ when a trim overflows

  // A text of which a cut to one token keeps two: it does not start with an empty line, and a character from the eighth
  // to the tenth survives.
  predicate OverrunsOne(text: string) { Split(text, '\n')[0] != "" && KeepsEight(text) }

  // Section i keeps all it may when section j is the last one that is cut: left alone, it is not blank, or counts
  // nothing; cut to its floor, that floor is nothing, or it keeps exactly as many tokens.
  ghost predicate LosesNothing(sections: seq<Section>, j: nat, i: nat)
    requires i < |sections| && j < |sections|
  {
    var sec := sections[i];
    if Trimmable(sec) && Before(sections, i, j) && Minimum(sec.name) < sec.tokenCount then
      Minimum(sec.name) == 0 || Measured(Shrunk(sec, Minimum(sec.name))) == Minimum(sec.name)
    else !Blank(sec.content) || sec.tokenCount == 0
  }

  // One token is left for section j, its text keeps two, and nothing else keeps less than it may.
  ghost predicate SlipsAt(sections: seq<Section>, budget: int, j: nat)
    requires j < |sections|
  {
    && LeavesOneFor(sections, budget, j) && OverrunsOne(sections[j].content)
    && forall i: nat :: i < |sections| && i != j ==> LosesNothing(sections, j, i)
  }

  lemma KeptTextShows(text: string)
    requires Split(text, '\n')[0] != "" && KeptText(text, 1) != ""
    ensures !Blank(KeptText(text, 1))
  {
    var lines := Split(text, '\n');
    assert lines[..1] == [lines[0]] && LinesCost(lines[..1]) == Count(lines[0]) + 1;
    var k := FittingLines(lines, 1);
    CostMonotone(lines, 1, if k > 0 then k else 1);
    CutEndsInWord(Truncate(text, 1), text);
  }

  lemma CutEndsInWord(cut: string, original: string)
    requires cut <= original
    ensures var r := CutAtWord(cut, original); r != "" ==> !IsSpace(r[|r| - 1])
  {
  }

  /** When a section that may be cut to nothing keeps two tokens of the one that is asked of it. */
  lemma KeepsTwoIff(sec: Section)
    requires Minimum(sec.name) == 0 && sec.tokenCount > 1
    ensures Measured(CutDown(sec, 1)) == 2 <==> OverrunsOne(sec.content)
  {
    ShrinkMeetsTargetIff(sec.content, 1);
    if OverrunsOne(sec.content) {
      KeptTextShows(sec.content);
    }
  }

  lemma LosesNothingIff(sections: seq<Section>, j: nat, i: nat)
    requires i < |sections| && j < |sections| && i != j
    ensures LosesNothing(sections, j, i)
            <==> Measured(CutDown(sections[i], RestOf(sections, j)[i])) == RestOf(sections, j)[i]
  {
  }

  lemma SlipIsMeasured(sections: seq<Section>, budget: int, j: nat)
    requires j < |sections| && LeavesOneFor(sections, budget, j)
    ensures SlipsAt(sections, budget, j)
            <==> Measures(CutsDown(sections, RestOf(sections, j)[j := 1])) == RestOf(sections, j)[j := 2]
  {
    var measures, most := Measures(CutsDown(sections, RestOf(sections, j)[j := 1])), RestOf(sections, j)[j := 2];
    KeepsTwoIff(sections[j]);
    assert measures[j] == most[j] <==> OverrunsOne(sections[j].content);
    forall i: nat | i < |sections| && i != j
      ensures measures[i] == most[i] <==> LosesNothing(sections, j, i)
    {
      LosesNothingIff(sections, j, i);
    }
    if SlipsAt(sections, budget, j) {
      assert forall i :: 0 <= i < |sections| ==> measures[i] == most[i];
    }
  }

  // What the sections keep when each is cut to its floor.
  ghost function FloorTotal(sections: seq<Section>): int { Sum(Measures(CutsDown(sections, Floors(sections)))) }

  lemma WorkingIsCutDown(sections: seq<Section>, working: seq<Section>, targets: seq<int>)
    requires |working| == |sections| == |targets|
    requires forall j :: 0 <= j < |sections| ==> AskedOf(sections[j], working[j], targets[j])
    ensures working == CutsDown(sections, targets)
  {
    forall j | 0 <= j < |sections|
      ensures working[j] == CutDown(sections[j], targets[j])
    {
      MeasuredWithin(sections[j], working[j], targets[j]);
    }
  }

  // No section is asked for one token: the result is no more than was asked for.
  lemma NoSlip(sections: seq<Section>, working: seq<Section>, targets: seq<int>, budget: int)
    requires AsksExactly(sections, working, targets, budget)
    requires forall j :: 0 <= j < |sections| ==> !LeavesOneFor(sections, budget, j)
    ensures Total(NonBlank(working)) <= Sum(targets)
  {
    forall j | 0 <= j < |sections|
      ensures Measured(working[j]) <= targets[j]
    {
      AskedForOneIff(sections, working, targets, budget, j);
      MeasuredWithin(sections[j], working[j], targets[j]);
    }
    NonBlankIsMeasured(working);
    SumMonotone(Measures(working), targets);
  }

  lemma RestIsNotOne(sections: seq<Section>, i: nat, j: nat)
    requires i < |sections| && j < |sections| && i != j
    ensures RestOf(sections, j)[i] != 1 || sections[i].tokenCount <= 1
  {
  }

  // With one token left for section j, only that section can keep more than was asked for.
  lemma MeasuredBesides(sections: seq<Section>, working: seq<Section>, j: nat)
    requires j < |sections| == |working| && sections[j].tokenCount > 1
    requires forall i :: 0 <= i < |sections| ==> AskedOf(sections[i], working[i], RestOf(sections, j)[j := 1][i])
    ensures Sum(Measures(working)) <= Sum(RestOf(sections, j)) + 2
    ensures Sum(Measures(working)) == Sum(RestOf(sections, j)) + 2 <==> Measures(working) == RestOf(sections, j)[j := 2]
  {
    var most := RestOf(sections, j)[j := 2];
    forall i | 0 <= i < |sections|
      ensures Measured(working[i]) <= most[i]
    {
      MeasuredWithin(sections[i], working[i], RestOf(sections, j)[j := 1][i]);
      if i != j {
        RestIsNotOne(sections, i, j);
      }
    }
    SumMonotone(Measures(working), most);
    SumUpdate(RestOf(sections, j), j, 2);
  }

  lemma OneSlip(sections: seq<Section>, working: seq<Section>, targets: seq<int>, budget: int, j: nat)
    requires AsksExactly(sections, working, targets, budget) && j < |sections| && LeavesOneFor(sections, budget, j)
    ensures Total(NonBlank(working)) <= budget + 1
    ensures Total(NonBlank(working)) == budget + 1 <==> SlipsAt(sections, budget, j)
  {
    AskedForOneIff(sections, working, targets, budget, j);
    MeasuredBesides(sections, working, j);
    NonBlankIsMeasured(working);
    WorkingIsCutDown(sections, working, targets);
    SlipIsMeasured(sections, budget, j);
  }

  /** Exactly when a trim overflows. If the locked sections and the floors need more than the budget, it overflows
      unless the cuts to the floors keep less than the floors allow, by whole lines and blank sections. If they do
      not, it overflows only for a single token: one section is left exactly one token, its text keeps two, and
      nothing else keeps less than it may. */
  lemma OverflowIff(sections: seq<Section>, budget: int, working: seq<Section>, targets: seq<int>, r: Trimmed)
    requires IsTrim(sections, budget, working, targets, r)
    ensures Demand(sections) > budget ==> (r.ContextOverflow? <==> FloorTotal(sections) > budget)
    ensures Demand(sections) <= budget ==>
              && (r.ContextOverflow? <==> exists j :: 0 <= j < |sections| && SlipsAt(sections, budget, j))
              && (r.ContextOverflow? ==> r.total == budget + 1)
  {
    if Total(sections) <= budget {
      FittingNeverSlips(sections, budget);
    } else if Demand(sections) > budget {
      AskedByPriority(sections, working, targets, budget);
      AllAtFloor(sections, targets);
      WorkingIsCutDown(sections, working, targets);
      NonBlankIsMeasured(working);
    } else if j :| 0 <= j < |sections| && LeavesOneFor(sections, budget, j) {
      OneSlip(sections, working, targets, budget, j);
      forall i | 0 <= i < |sections| && SlipsAt(sections, budget, i)
        ensures Total(NonBlank(working)) == budget + 1
      {
        OneSlip(sections, working, targets, budget, i);
      }
    } else {
      NoSlip(sections, working, targets, budget);
    }
  }

  lemma FittingNeverSlips(sections: seq<Section>, budget: int)
    requires Total(sections) <= budget
    ensures Demand(sections) <= budget
    ensures forall j :: 0 <= j < |sections| ==> !LeavesOneFor(sections, budget, j)
  {
    SumOfCounts(sections);
    SumAtLeastDemand(sections, Counts(sections));
    forall j | 0 <= j < |sections| && Trimmable(sections[j]) && sections[j].tokenCount > 1
      ensures Sum(RestOf(sections, j)) + 1 < budget
    {
      SumMonotone(RestOf(sections, j), Counts(sections)[j := 0]);
      SumUpdate(Counts(sections), j, 0);
    }
  }

  /** When no section can be left exactly one token, overflow means that the locked sections and the floors need
      more than the budget. */
  lemma OverflowNeedsDemand(sections: seq<Section>, budget: int, working: seq<Section>, targets: seq<int>, r: Trimmed)
    requires IsTrim(sections, budget, working, targets, r) && r.ContextOverflow?
    requires forall j :: 0 <= j < |sections| ==> !LeavesOneFor(sections, budget, j)
    ensures Demand(sections) > budget
  {
    OverflowIff(sections, budget, working, targets, r);
  }

  // Eight characters of retrieved text.
  const EIGHT := Section(Name("retrieval"), "abcdefgh", 5, 2, true, None, "")

  lemma EightIsLeftOne()
    ensures LeavesOneFor([EIGHT], 1, 0)
  {
    var rest := RestOf([EIGHT], 0);
    assert rest == [0] && rest[..0] == [] && Sum(rest) == 0;
  }

  lemma EightOverruns()
    ensures OverrunsOne(EIGHT.content)
  {
    SplitWithout(EIGHT.content, '\n');
    assert EIGHT.content[7] == 'h' && !IsSpace('h');
  }

  lemma EightSlips()
    ensures SlipsAt([EIGHT], 1, 0) && Demand([EIGHT]) == 0
  {
    EightIsLeftOne();
    EightOverruns();
    assert [EIGHT][..0] == [];
  }

  /** The overflow that the floors did not force is real: eight characters of retrieved text do not fit a budget of
      one token, although they could be dropped. */
  lemma SingleTokenOverflow(working: seq<Section>, targets: seq<int>, r: Trimmed)
    requires IsTrim([EIGHT], 1, working, targets, r)
    ensures r == ContextOverflow(2) && Demand([EIGHT]) == 0
  {
    EightSlips();
    OverflowIff([EIGHT], 1, working, targets, r);
  }

  function Counts(sections: seq<Section>): (targets: seq<int>)
    ensures |targets| == |sections| && forall j :: 0 <= j < |sections| ==> targets[j] == sections[j].tokenCount
  {
    seq(|sections|, j requires 0 <= j < |sections| => sections[j].tokenCount)
  }

  lemma {:induction false} SumOfCounts(sections: seq<Section>)
    ensures Sum(Counts(sections)) == Total(sections)
  {
    if sections != [] {
      SumOfCounts(sections[..|sections| - 1]);
      assert Counts(sections)[..|sections| - 1] == Counts(sections[..|sections| - 1]);
    }
  }

}
