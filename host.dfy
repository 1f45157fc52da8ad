/**
 * The Electron host's bookkeeping of real project windows (orchestrator/main.js): an
 * ordered list of open windows with their projects, a per-project count, a cap of 16
 * windows and 7 per project, a close-oldest request that needs at least 5 windows, and
 * the `closed` handler that removes a window once it has gone.
 */
module Host {
  import opened Wrappers
  import opened Config
  import Windows

  const HostMaxWindows: nat := 16
  const HostMaxPerProject: nat := 7
  const HostMinToClose: nat := 5

  /** An entry of `openWindows`; `window` stands for the BrowserWindow's identity. */
  datatype Entry = Entry(window: nat, project: Project)

  /** The host's state: the open windows, the counts, and the next fresh window identity. */
  datatype Registry = Registry(entries: seq<Entry>, counts: map<Project, int>, nextWindow: nat)

  function Count(es: seq<Entry>, p: Project): (n: nat)
    ensures n <= |es|
  {
    if |es| == 0 then 0 else (if es[0].project == p then 1 else 0) + Count(es[1..], p)
  }

  lemma {:induction false} CountAppend(es: seq<Entry>, e: Entry, p: Project)
    ensures Count(es + [e], p) == Count(es, p) + (if e.project == p then 1 else 0)
  {
    if |es| > 0 {
      assert (es + [e])[1..] == es[1..] + [e];
      CountAppend(es[1..], e, p);
    }
  }

  lemma {:induction false} CountRemove(es: seq<Entry>, i: nat, p: Project)
    requires i < |es|
    ensures Count(es[..i] + es[i + 1..], p) == Count(es, p) - (if es[i].project == p then 1 else 0)
  {
    if i > 0 {
      CountRemove(es[1..], i - 1, p);
      assert (es[..i] + es[i + 1..])[1..] == es[1..][..i - 1] + es[1..][i..];
    } else {
      assert es[..i] + es[i + 1..] == es[1..];
    }
  }

  /** Window identities strictly increase along the list and lie below the next one. */
  ghost predicate Increasing(es: seq<Entry>, nextWindow: nat)
  {
    && (forall i, j :: 0 <= i < j < |es| ==> es[i].window < es[j].window)
    && (forall i :: 0 <= i < |es| ==> es[i].window < nextWindow)
  }

  /** The counts match the list, and both caps hold. */
  ghost predicate Inv(r: Registry)
  {
    && Windows.AllCounted(r.counts)
    && (forall p: Project :: r.counts[p] == Count(r.entries, p) && r.counts[p] <= HostMaxPerProject)
    && |r.entries| <= HostMaxWindows
    && Increasing(r.entries, r.nextWindow)
  }

  function Empty(): (r: Registry)
    ensures Inv(r)
  {
    Windows.EveryProjectListed();
    Registry([], map p: Project | p in Projects :: 0, 0)
  }

  /** The first entry for `window`, or -1 (`findIndex`). */
  function FindEntry(es: seq<Entry>, window: nat): (i: int)
    ensures -1 <= i < |es|
    ensures i >= 0 ==> es[i].window == window && forall k :: 0 <= k < i ==> es[k].window != window
    ensures i == -1 ==> forall k :: 0 <= k < |es| ==> es[k].window != window
  {
    if |es| == 0 then -1
    else if es[0].window == window then 0
    else
      var i := FindEntry(es[1..], window);
      if i == -1 then -1 else i + 1
  }

  /**
   * `openProjectWindow`: refused at 16 windows or when no project is under 7; otherwise
   * the project drawn by `pick` is appended with a fresh window and its count goes up.
   */
  function Opened(r: Registry, pick: real): (Registry, bool)
    requires Windows.AllCounted(r.counts) && 0.0 <= pick < 1.0
  {
    if |r.entries| >= HostMaxWindows then (r, false)
    else
      match Windows.RandomProject(r.counts, HostMaxPerProject, pick)
      case None => (r, false)
      case Some(p) =>
        (Registry(r.entries + [Entry(r.nextWindow, p)], r.counts[p := r.counts[p] + 1], r.nextWindow + 1), true)
  }

  /** The `closed` handler: the matching entry goes and its project's count goes down. */
  function Closed(r: Registry, window: nat): Registry
    requires Windows.AllCounted(r.counts)
  {
    var i := FindEntry(r.entries, window);
    if i == -1 then r
    else
      var e := r.entries[i];
      r.(entries := r.entries[..i] + r.entries[i + 1..], counts := r.counts[e.project := r.counts[e.project] - 1])
  }

  /** `closeOldestWindow`: with 5 or more windows it asks the first (oldest) one to close. */
  function OldestRequest(r: Registry): Option<nat>
  {
    if |r.entries| < HostMinToClose then None else Some(r.entries[0].window)
  }

  /**
   * Opening refuses exactly at the caps and then changes nothing; otherwise it appends a
   * window with a fresh identity, of a project that was under its cap, and counts it.
   */
  lemma OpenedOutcome(r: Registry, pick: real)
    requires Windows.AllCounted(r.counts) && 0.0 <= pick < 1.0
    ensures var (r', ok) := Opened(r, pick);
      && (!ok <==> |r.entries| >= HostMaxWindows || forall p: Project :: r.counts[p] >= HostMaxPerProject)
      && (!ok ==> r' == r)
      && (ok ==> |r'.entries| == |r.entries| + 1 &&
                 var p := r'.entries[|r.entries|].project;
                 && r.counts[p] < HostMaxPerProject
                 && r' == Registry(r.entries + [Entry(r.nextWindow, p)], r.counts[p := r.counts[p] + 1], r.nextWindow + 1))
  {
  }

  /** Opening keeps the counts matching the list, both caps, and fresh increasing identities. */
  lemma OpenedKeepsInv(r: Registry, pick: real)
    requires Inv(r) && 0.0 <= pick < 1.0
    ensures Inv(Opened(r, pick).0)
  {
    if |r.entries| < HostMaxWindows && Windows.RandomProject(r.counts, HostMaxPerProject, pick).Some? {
      var p := Windows.RandomProject(r.counts, HostMaxPerProject, pick).value;
      AppendKeepsInv(r, p, Opened(r, pick).0);
    }
  }

  lemma AppendKeepsInv(r: Registry, p: Project, r': Registry)
    requires Inv(r) && |r.entries| < HostMaxWindows && r.counts[p] < HostMaxPerProject
    requires r' == Registry(r.entries + [Entry(r.nextWindow, p)], r.counts[p := r.counts[p] + 1], r.nextWindow + 1)
    ensures Inv(r')
  {
    forall q: Project
      ensures r'.counts[q] == Count(r'.entries, q) && r'.counts[q] <= HostMaxPerProject
    {
      CountAppend(r.entries, Entry(r.nextWindow, p), q);
    }
  }

  /**
   * A `closed` event for a window that is not listed changes nothing; otherwise exactly
   * that entry goes, the others keep their order, and its project's count drops by one.
   */
  lemma ClosedOutcome(r: Registry, window: nat)
    requires Inv(r)
    ensures (forall k :: 0 <= k < |r.entries| ==> r.entries[k].window != window) ==> Closed(r, window) == r
    ensures forall k :: 0 <= k < |r.entries| && r.entries[k].window == window ==>
              && Closed(r, window).entries == r.entries[..k] + r.entries[k + 1..]
              && Closed(r, window).counts == r.counts[r.entries[k].project := r.counts[r.entries[k].project] - 1]
  {
    var i := FindEntry(r.entries, window);
    forall k | 0 <= k < |r.entries| && r.entries[k].window == window
      ensures k == i
    {
      Unique(r.entries, r.nextWindow, k, i);
    }
  }

  /** Closing keeps the counts matching the list, both caps, and increasing identities. */
  lemma ClosedKeepsInv(r: Registry, window: nat)
    requires Inv(r)
    ensures Inv(Closed(r, window))
  {
    var i := FindEntry(r.entries, window);
    if i >= 0 {
      RemoveKeepsInv(r, i, Closed(r, window));
    }
  }

  lemma RemoveKeepsInv(r: Registry, i: nat, r': Registry)
    requires Inv(r) && i < |r.entries|
    requires r' == r.(entries := r.entries[..i] + r.entries[i + 1..],
                      counts := r.counts[r.entries[i].project := r.counts[r.entries[i].project] - 1])
    ensures Inv(r')
  {
    forall q: Project
      ensures r'.counts[q] == Count(r'.entries, q) && r'.counts[q] <= HostMaxPerProject
    {
      CountRemove(r.entries, i, q);
    }
    var es := r'.entries;
    assert forall k :: 0 <= k < |es| ==> es[k] == if k < i then r.entries[k] else r.entries[k + 1];
  }

  /** Two entries with the same window are the same entry. */
  lemma Unique(es: seq<Entry>, nextWindow: nat, j: nat, k: nat)
    requires Increasing(es, nextWindow) && j < |es| && k < |es| && es[j].window == es[k].window
    ensures j == k
  {
  }

  /**
   * The close-oldest request targets the oldest window, and once it has closed, the
   * list is what it was without its first entry (FIFO).
   */
  lemma OldestFirst(r: Registry)
    requires Inv(r)
    ensures OldestRequest(r).Some? <==> |r.entries| >= HostMinToClose
    ensures OldestRequest(r).Some? ==> Closed(r, OldestRequest(r).value).entries == r.entries[1..]
  {
    if |r.entries| >= HostMinToClose {
      ClosedOutcome(r, r.entries[0].window);
      assert r.entries[..0] + r.entries[1..] == r.entries[1..];
    }
  }

  /** The host process's registry. */
  class WindowHost {
    var entries: seq<Entry>
    var counts: map<Project, int>
    var nextWindow: nat

    function State(): Registry
      reads this
    {
      Registry(entries, counts, nextWindow)
    }

    ghost predicate Valid()
      reads this
    {
      Inv(State())
    }

    constructor ()
      ensures Valid() && State() == Empty()
    {
      var r := Empty();
      entries, counts, nextWindow := r.entries, r.counts, r.nextWindow;
    }

    /** `openProjectWindow`; `pick` stands for the random draw. */
    method OpenProjectWindow(pick: real) returns (ok: bool)
      requires Valid() && 0.0 <= pick < 1.0
      modifies this
      ensures Valid() && (State(), ok) == Opened(old(State()), pick)
    {
      ghost var before := State();
      OpenedKeepsInv(before, pick);
      if |entries| >= HostMaxWindows {
        return false;
      }
      var project := Windows.RandomProject(counts, HostMaxPerProject, pick);
      if project.None? {
        return false;
      }
      entries := entries + [Entry(nextWindow, project.value)];
      counts := counts[project.value := counts[project.value] + 1];
      nextWindow := nextWindow + 1;
      ok := true;
      assert State() == Opened(before, pick).0;
    }

    /** The `closed` event of `window`. */
    method WindowClosed(window: nat)
      requires Valid()
      modifies this
      ensures Valid() && State() == Closed(old(State()), window)
    {
      ghost var before := State();
      ClosedKeepsInv(before, window);
      var index := FindEntry(entries, window);
      if index > -1 {
        var closedProject := entries[index].project;
        counts := counts[closedProject := counts[closedProject] - 1];
        entries := entries[..index] + entries[index + 1..];
      }
      assert State() == Closed(before, window);
    }

    /** `closeOldestWindow`: returns whether it asked, and which window it asked to close. */
    method CloseOldestWindow() returns (ok: bool, request: Option<nat>)
      requires Valid()
      ensures request == OldestRequest(State()) && ok == request.Some?
    {
      if |entries| < HostMinToClose {
        return false, None;
      }
      return true, Some(entries[0].window);
    }

    /** `get-window-count`. */
    method WindowCount() returns (n: nat)
      requires Valid()
      ensures n == |entries| && n <= HostMaxWindows
    {
      n := |entries|;
    }
  }
}
