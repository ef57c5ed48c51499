/** The active-heading tracker of src/runtime/composables/useActiveHeading.ts:
    option defaulting, the choice of the topmost visible heading, and the
    observer's life cycle as a class. */
module ActiveHeading {
  import opened Wrappers
  import opened VisibleMap

  // ---------------------------------------------------------------------
  // Options
  // ---------------------------------------------------------------------

  const DefaultOffset: int := 80

  /** `options.offsetTop ?? moduleOptions.scrollOffset ?? 80`. */
  function EffectiveOffset(offsetTop: Option<int>, scrollOffset: Option<int>): (r: int)
    ensures offsetTop.Some? ==> r == offsetTop.value
    ensures offsetTop.None? && scrollOffset.Some? ==> r == scrollOffset.value
    ensures offsetTop.None? && scrollOffset.None? ==> r == 80
  {
    offsetTop.GetOr(scrollOffset.GetOr(DefaultOffset))
  }

  /** The character of one decimal digit. */
  function DigitChar(d: nat): (c: char)
    requires d < 10
    ensures '0' <= c <= '9' && (c as int) - ('0' as int) == d
  {
    "0123456789"[d]
  }

  /** The decimal numeral of a natural number, as a template literal prints it. */
  function NatToString(n: nat): (s: string)
    ensures |s| > 0
    ensures forall i :: 0 <= i < |s| ==> '0' <= s[i] <= '9'
    ensures |s| > 1 ==> s[0] != '0'
    decreases n
  {
    if n < 10 then [DigitChar(n)] else NatToString(n / 10) + [DigitChar(n % 10)]
  }

  /** `${n}` for an integer `n`. */
  function IntToString(n: int): (r: string)
    ensures n >= 0 ==> r == NatToString(n)
    ensures n < 0 ==> |r| > 1 && r[0] == '-' && r[1..] == NatToString(-n)
  {
    if n < 0 then "-" + NatToString(-n) else NatToString(n)
  }

  /** The number a string of decimal digits denotes. */
  function DecimalValue(s: string): nat
    requires forall i :: 0 <= i < |s| ==> '0' <= s[i] <= '9'
    decreases |s|
  {
    if s == [] then 0
    else DecimalValue(s[..|s| - 1]) * 10 + ((s[|s| - 1] as int) - ('0' as int))
  }

  /** Printing a natural number and reading it back gives the number. */
  lemma {:induction false} DecimalRoundTrip(n: nat)
    ensures DecimalValue(NatToString(n)) == n
    decreases n
  {
    if n >= 10 {
      DecimalRoundTrip(n / 10);
      var s := NatToString(n);
      assert s[..|s| - 1] == NatToString(n / 10);
    }
  }

  /** The fixed part of the default root margin after the top margin's number. */
  const MarginTail: string := "px 0px -80% 0px"

  /** `-${offsetTop}px 0px -80% 0px`. */
  function DefaultRootMargin(offset: int): (r: string)
    ensures |r| > |MarginTail| + 1 && r[0] == '-'
    ensures r[|r| - |MarginTail|..] == MarginTail
  {
    "-" + IntToString(offset) + MarginTail
  }

  /** `options.rootMargin ?? <default built from the offset>`. */
  function EffectiveRootMargin(rootMargin: Option<string>, offset: int): (r: string)
    ensures rootMargin.Some? ==> r == rootMargin.value
    ensures rootMargin.None? ==> r == DefaultRootMargin(offset)
  {
    rootMargin.GetOr(DefaultRootMargin(offset))
  }

  /** For a non-negative offset the default margin is a negative top margin of
      exactly `offset` pixels, then the fixed tail that shrinks the band's
      bottom by 80% of the viewport. */
  lemma DefaultRootMarginEncodesOffset(offset: nat)
    ensures var r := DefaultRootMargin(offset);
      && r[0] == '-'
      && r[|r| - |MarginTail|..] == MarginTail
      && (forall i :: 1 <= i < |r| - |MarginTail| ==> '0' <= r[i] <= '9')
      && DecimalValue(r[1..|r| - |MarginTail|]) == offset
  {
    var r := DefaultRootMargin(offset);
    var digits := NatToString(offset);
    assert r == "-" + digits + MarginTail;
    assert r[1..|r| - |MarginTail|] == digits;
    DecimalRoundTrip(offset);
  }

  // ---------------------------------------------------------------------
  // Choosing the active heading
  // ---------------------------------------------------------------------

  /** `x || null` on an id: the empty string is falsy and becomes null. */
  function OrNull(id: string): (r: Option<string>)
    ensures r != Some("")
    ensures id != "" ==> r == Some(id)
  {
    if id == "" then None else Some(id)
  }

  /** Ordered by top offset, as the comparator `a.top - b.top` orders them. */
  predicate SortedByTop(s: Pairs) {
    forall i, j :: 0 <= i < j < |s| ==> s[i].1 <= s[j].1
  }

  /** Insert `x` before the first entry that is not above it. */
  function InsertByTop(x: (string, int), s: Pairs): (r: Pairs)
    ensures multiset(r) == multiset(s) + multiset{x}
    ensures |r| == |s| + 1
    ensures r[0] == if s == [] || x.1 <= s[0].1 then x else s[0]
    decreases s
  {
    if s == [] || x.1 <= s[0].1 then [x] + s
    else
      assert s == [s[0]] + s[1..];
      [s[0]] + InsertByTop(x, s[1..])
  }

  /** A bound below `x` and every entry of `s` stays below every entry after the insert. */
  lemma {:induction false} InsertKeepsLowerBound(x: (string, int), s: Pairs, b: int)
    requires b <= x.1
    requires forall i :: 0 <= i < |s| ==> b <= s[i].1
    ensures forall i :: 0 <= i < |InsertByTop(x, s)| ==> b <= InsertByTop(x, s)[i].1
    decreases s
  {
    if s != [] && x.1 > s[0].1 {
      InsertKeepsLowerBound(x, s[1..], b);
    }
  }

  /** Inserting into a sorted sequence keeps it sorted. */
  lemma {:induction false} InsertKeepsSorted(x: (string, int), s: Pairs)
    requires SortedByTop(s)
    ensures SortedByTop(InsertByTop(x, s))
    decreases s
  {
    if s != [] && x.1 > s[0].1 {
      var rest := InsertByTop(x, s[1..]);
      InsertKeepsSorted(x, s[1..]);
      InsertKeepsLowerBound(x, s[1..], s[0].1);
      var r := InsertByTop(x, s);
      assert r == [s[0]] + rest;
      forall i, j | 0 <= i < j < |r| ensures r[i].1 <= r[j].1 {
        if i == 0 {
          assert r[j] == rest[j - 1];
        } else {
          assert r[i] == rest[i - 1] && r[j] == rest[j - 1];
        }
      }
    }
  }

  /** A stable sort by top offset: each entry is inserted before all later
      entries with the same top, so ties keep their insertion order. */
  function SortByTop(s: Pairs): (r: Pairs)
    ensures multiset(r) == multiset(s)
    ensures |r| == |s|
    decreases s
  {
    if s == [] then []
    else
      assert s == [s[0]] + s[1..];
      InsertByTop(s[0], SortByTop(s[1..]))
  }

  /** The sort's result is ordered by top. */
  lemma {:induction false} SortByTopSorted(s: Pairs)
    ensures SortedByTop(SortByTop(s))
    decreases s
  {
    if s != [] {
      SortByTopSorted(s[1..]);
      InsertKeepsSorted(s[0], SortByTop(s[1..]));
    }
  }

  /** The index of the first entry, in insertion order, with the smallest top. */
  function FirstTopmost(s: Pairs): (r: nat)
    requires |s| > 0
    ensures r < |s|
    ensures forall i :: 0 <= i < |s| ==> s[r].1 <= s[i].1
    ensures forall i :: 0 <= i < r ==> s[i].1 > s[r].1
    decreases s
  {
    if |s| == 1 then 0
    else
      var j := FirstTopmost(s[1..]);
      if s[0].1 <= s[1..][j].1 then 0 else j + 1
  }

  /** The head of the stable sort is the first topmost entry. */
  lemma {:induction false} SortHeadIsFirstTopmost(s: Pairs)
    requires |s| > 0
    ensures SortByTop(s)[0] == s[FirstTopmost(s)]
    decreases s
  {
    if |s| > 1 {
      SortHeadIsFirstTopmost(s[1..]);
    }
  }

  /** `updateActiveHeading`: with nothing visible the active id stays; otherwise
      it becomes the first id of the visible entries sorted by top. */
  function UpdateActiveHeading(activeId: Option<string>, visible: Pairs): (r: Option<string>)
    ensures |visible| == 0 ==> r == activeId
    ensures activeId != Some("") ==> r != Some("")
  {
    if |visible| == 0 then activeId
    else OrNull(SortByTop(visible)[0].0)
  }

  /** With something visible, the active id is the visible id with the smallest
      top; among equal tops, the one inserted into the map first. */
  lemma ActiveIsFirstTopmost(activeId: Option<string>, visible: Pairs)
    requires |visible| > 0
    ensures var i := FirstTopmost(visible);
      && UpdateActiveHeading(activeId, visible) == OrNull(visible[i].0)
      && (forall j :: 0 <= j < |visible| ==> visible[i].1 <= visible[j].1)
      && (forall j :: 0 <= j < i ==> visible[j].1 > visible[i].1)
  {
    SortHeadIsFirstTopmost(visible);
  }

  /** Equal tops go to insertion order, not to document order. */
  lemma TieBreakExample()
    ensures UpdateActiveHeading(None, [("h1", 0), ("h2", 0)]) == Some("h1")
    ensures UpdateActiveHeading(None, [("h2", 0), ("h1", 0)]) == Some("h2")
    ensures UpdateActiveHeading(Some("h1"), [("h3", 40), ("h2", 10)]) == Some("h2")
  {
    ActiveIsFirstTopmost(None, [("h1", 0), ("h2", 0)]);
    ActiveIsFirstTopmost(None, [("h2", 0), ("h1", 0)]);
    ActiveIsFirstTopmost(Some("h1"), [("h3", 40), ("h2", 10)]);
  }

  // ---------------------------------------------------------------------
  // The tracker
  // ---------------------------------------------------------------------

  /** The `observer` variable: none yet (or released), a live observer with the
      ids it observes, or an observer that was disconnected but not released. */
  datatype ObserverState = NoObserver | Connected(targets: set<string>) | Disconnected

  class ActiveHeadingTracker {
    const offsetTop: int
    const rootMargin: string
    var activeId: Option<string>
    var visible: Pairs
    var observer: ObserverState

    /** The active id is never the empty string (it is always set through
        `|| null`), the map's keys are unique, and only a live observer has
        visible headings. */
    ghost predicate Valid()
      reads this
    {
      && UniqueKeys(visible)
      && activeId != Some("")
      && (!observer.Connected? ==> visible == [])
    }

    /** The composable's setup: options resolved, no active heading, no observer. */
    constructor (offsetTopOption: Option<int>, marginOption: Option<string>, scrollOffset: Option<int>)
      ensures Valid()
      ensures offsetTop == EffectiveOffset(offsetTopOption, scrollOffset)
      ensures rootMargin == EffectiveRootMargin(marginOption, offsetTop)
      ensures activeId == None && visible == [] && observer == NoObserver
    {
      offsetTop := EffectiveOffset(offsetTopOption, scrollOffset);
      rootMargin := EffectiveRootMargin(marginOption, EffectiveOffset(offsetTopOption, scrollOffset));
      activeId := None;
      visible := [];
      observer := NoObserver;
    }

    /** `setupObserver`, with `present` the ids that have an element in the
        document. An existing observer is disconnected and the map cleared;
        an empty id list clears the active id and stops there; otherwise every
        present id is observed, missing ones are skipped, and the first id
        becomes active only if none was. */
    method SetupObserver(headingIds: seq<string>, present: set<string>)
      requires Valid()
      modifies this
      ensures Valid()
      ensures visible == []
      ensures |headingIds| == 0 ==> activeId == None
      ensures |headingIds| == 0 ==> observer == if old(observer).NoObserver? then NoObserver else Disconnected
      ensures |headingIds| > 0 ==> observer == Connected(set id | id in headingIds && id in present)
      ensures |headingIds| > 0 ==> activeId == if old(activeId).None? then OrNull(headingIds[0]) else old(activeId)
    {
      if !observer.NoObserver? {
        observer := Disconnected;
        visible := [];
      }
      if |headingIds| == 0 {
        activeId := None;
        return;
      }
      var targets: set<string> := {};
      for i := 0 to |headingIds|
        invariant targets == set id | id in headingIds[..i] && id in present
      {
        assert headingIds[..i + 1] == headingIds[..i] + [headingIds[i]];
        if headingIds[i] in present {
          targets := targets + {headingIds[i]};
        }
      }
      assert headingIds[..|headingIds|] == headingIds;
      observer := Connected(targets);
      if activeId.None? {
        activeId := OrNull(headingIds[0]);
      }
    }

    /** The observer's callback for one batch of entries: `set` or `delete`
        per entry in order, then `updateActiveHeading`. Only a live observer
        delivers batches. */
    method OnBatch(entries: seq<ObservedEntry>)
      requires Valid() && observer.Connected?
      modifies this
      ensures Valid()
      ensures observer == old(observer)
      ensures visible == ApplyBatch(old(visible), entries)
      ensures activeId == UpdateActiveHeading(old(activeId), visible)
    {
      for i := 0 to |entries|
        invariant visible == ApplyBatch(old(visible), entries[..i])
        invariant UniqueKeys(visible)
        invariant activeId == old(activeId) && observer == old(observer)
      {
        assert entries[..i + 1][..i] == entries[..i];
        var entry := entries[i];
        if entry.isIntersecting {
          SetUnique(visible, entry.id, entry.top);
          visible := Set(visible, entry.id, entry.top);
        } else {
          DeleteUnique(visible, entry.id);
          visible := Delete(visible, entry.id);
        }
      }
      assert entries[..|entries|] == entries;
      activeId := UpdateActiveHeading(activeId, visible);
    }

    /** Unmount teardown: the observer is released and the map emptied; the
        active id is kept. A second teardown changes nothing. */
    method Unmount()
      requires Valid()
      modifies this
      ensures Valid()
      ensures observer == NoObserver && visible == [] && activeId == old(activeId)
      ensures old(observer).NoObserver? ==> unchanged(this)
    {
      if !observer.NoObserver? {
        observer := NoObserver;
      }
      visible := [];
    }
  }

  /** The scenarios the tracker is meant to get right: the first heading is
      active before any batch, a heading that scrolls into the band becomes
      active, it stays active when nothing is visible, and teardown twice is
      harmless. */
  method TrackerScenario() returns (active: Option<string>)
    ensures active == Some("h2")
  {
    var t := new ActiveHeadingTracker(None, None, None);
    assert t.offsetTop == 80;
    t.SetupObserver(["h1", "h2"], {"h1", "h2"});
    assert t.activeId == Some("h1");
    t.OnBatch([ObservedEntry("h2", true, 10)]);
    assert Lookup(t.visible, "h2") == Some(10);
    assert t.activeId == Some("h2");
    t.OnBatch([ObservedEntry("h2", false, 10)]);
    assert t.visible == [];
    assert t.activeId == Some("h2");
    t.Unmount();
    t.Unmount();
    assert t.activeId == Some("h2") && t.observer == NoObserver;
    active := t.activeId;
  }
}
