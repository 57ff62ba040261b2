/**
 * The message pump that runs the GLib main context inside an Android ALooper
 * (MessagePump.cpp).
 *
 * GLib tells the pump, through `g_main_context_query`, which file descriptors
 * it wants polled; `Prepare` copies them into a growable buffer, attaches each
 * new descriptor to the looper and detaches the ones GLib no longer wants.
 * When the looper reports an event, `OnFdEvent` stores it in the matching
 * entry and schedules a dispatch. The GLib context is modelled by the list of
 * poll entries it reports; the looper by the table of descriptors attached to
 * it with their event masks.
 */
module MessagePump {
  import opened Wrappers

  // GLib poll condition flags (GIOCondition).
  const G_IO_IN: bv16 := 1
  const G_IO_PRI: bv16 := 2
  const G_IO_OUT: bv16 := 4
  const G_IO_ERR: bv16 := 8
  const G_IO_HUP: bv16 := 16
  const G_IO_NVAL: bv16 := 32

  // ALooper event flags (android/looper.h).
  const ALOOPER_EVENT_INPUT: bv32 := 1
  const ALOOPER_EVENT_OUTPUT: bv32 := 2
  const ALOOPER_EVENT_ERROR: bv32 := 4
  const ALOOPER_EVENT_HANGUP: bv32 := 8
  const ALOOPER_EVENT_INVALID: bv32 := 16

  /** The GLib conditions that have a looper counterpart. */
  const TranslatedGLibEvents: bv16 := G_IO_IN | G_IO_OUT | G_IO_ERR | G_IO_HUP | G_IO_NVAL
  const AllLooperEvents: bv32 := 0x1f

  /** `glibEventsToLooperEvents`: each translated GLib flag sets exactly its looper flag. */
  function GLibEventsToLooperEvents(events: bv16): (r: bv32)
    ensures (r & ALOOPER_EVENT_INPUT != 0) <==> (events & G_IO_IN != 0)
    ensures (r & ALOOPER_EVENT_OUTPUT != 0) <==> (events & G_IO_OUT != 0)
    ensures (r & ALOOPER_EVENT_ERROR != 0) <==> (events & G_IO_ERR != 0)
    ensures (r & ALOOPER_EVENT_HANGUP != 0) <==> (events & G_IO_HUP != 0)
    ensures (r & ALOOPER_EVENT_INVALID != 0) <==> (events & G_IO_NVAL != 0)
    ensures r & !AllLooperEvents == 0
  {
    (if events & G_IO_IN != 0 then ALOOPER_EVENT_INPUT else 0)
    | (if events & G_IO_OUT != 0 then ALOOPER_EVENT_OUTPUT else 0)
    | (if events & G_IO_ERR != 0 then ALOOPER_EVENT_ERROR else 0)
    | (if events & G_IO_HUP != 0 then ALOOPER_EVENT_HANGUP else 0)
    | (if events & G_IO_NVAL != 0 then ALOOPER_EVENT_INVALID else 0)
  }

  /** `looperEventsToGLibEvents`: each looper flag sets exactly its GLib flag. */
  function LooperEventsToGLibEvents(events: bv32): (r: bv16)
    ensures (r & G_IO_IN != 0) <==> (events & ALOOPER_EVENT_INPUT != 0)
    ensures (r & G_IO_OUT != 0) <==> (events & ALOOPER_EVENT_OUTPUT != 0)
    ensures (r & G_IO_ERR != 0) <==> (events & ALOOPER_EVENT_ERROR != 0)
    ensures (r & G_IO_HUP != 0) <==> (events & ALOOPER_EVENT_HANGUP != 0)
    ensures (r & G_IO_NVAL != 0) <==> (events & ALOOPER_EVENT_INVALID != 0)
    ensures r & !TranslatedGLibEvents == 0
  {
    (if events & ALOOPER_EVENT_INPUT != 0 then G_IO_IN else 0)
    | (if events & ALOOPER_EVENT_OUTPUT != 0 then G_IO_OUT else 0)
    | (if events & ALOOPER_EVENT_ERROR != 0 then G_IO_ERR else 0)
    | (if events & ALOOPER_EVENT_HANGUP != 0 then G_IO_HUP else 0)
    | (if events & ALOOPER_EVENT_INVALID != 0 then G_IO_NVAL else 0)
  }

  /** Translating GLib conditions to the looper and back keeps every translated condition (G_IO_PRI has no counterpart). */
  lemma GLibRoundTrip(events: bv16)
    ensures LooperEventsToGLibEvents(GLibEventsToLooperEvents(events)) == events & TranslatedGLibEvents
  {
  }

  /** Translating looper events to GLib and back keeps every looper event. */
  lemma LooperRoundTrip(events: bv32)
    ensures GLibEventsToLooperEvents(LooperEventsToGLibEvents(events)) == events & AllLooperEvents
  {
  }

  /** A `GPollFD`: the descriptor, the conditions GLib waits for, the conditions that occurred. */
  datatype PollFd = PollFd(fd: int, events: bv16, revents: bv16)

  function FdsOf(entries: seq<PollFd>): set<int>
  {
    set i | 0 <= i < |entries| :: entries[i].fd
  }

  /** The entries GLib asked for, with their reported conditions cleared. */
  function Cleared(entries: seq<PollFd>): (r: seq<PollFd>)
    ensures |r| == |entries|
    ensures forall i :: 0 <= i < |r| ==> r[i].fd == entries[i].fd && r[i].events == entries[i].events && r[i].revents == 0
  {
    seq(|entries|, i requires 0 <= i < |entries| => entries[i].(revents := 0))
  }

  /** The index of the first entry for `fd` among the first `n` entries, or `n` when there is none. */
  function FirstEntry(entries: seq<PollFd>, n: nat, fd: int): (j: nat)
    requires n <= |entries|
    ensures j <= n
    ensures j < n ==> entries[j].fd == fd
    ensures forall k :: 0 <= k < j ==> entries[k].fd != fd
  {
    if n == 0 then 0
    else
      var j := FirstEntry(entries, n - 1, fd);
      if j < n - 1 then j else if entries[n - 1].fd == fd then n - 1 else n
  }

  /** The looper event mask a newly attached descriptor is added with. */
  function AttachMask(entry: PollFd): bv32
  {
    GLibEventsToLooperEvents(entry.events) | ALOOPER_EVENT_OUTPUT
  }

  /**
   * The looper registrations after attaching, in order, every entry whose
   * descriptor is not registered yet.
   */
  function AttachAll(registered: map<int, bv32>, entries: seq<PollFd>): map<int, bv32>
  {
    if entries == [] then registered
    else
      var before := AttachAll(registered, entries[..|entries| - 1]);
      var entry := entries[|entries| - 1];
      if entry.fd in before then before else before[entry.fd := AttachMask(entry)]
  }

  /** One more entry of a prefix: attached if new, and its descriptor named. */
  lemma AttachPrefixStep(registered: map<int, bv32>, entries: seq<PollFd>, i: nat)
    requires i < |entries|
    ensures AttachAll(registered, entries[..i + 1]) ==
      var before := AttachAll(registered, entries[..i]);
      if entries[i].fd in before then before else before[entries[i].fd := AttachMask(entries[i])]
    ensures FdsOf(entries[..i + 1]) == FdsOf(entries[..i]) + {entries[i].fd}
  {
    assert entries[..i + 1][..i] == entries[..i];
    FdsOfSnoc(entries[..i + 1]);
  }

  lemma FdsOfSnoc(entries: seq<PollFd>)
    requires entries != []
    ensures FdsOf(entries) == FdsOf(entries[..|entries| - 1]) + {entries[|entries| - 1].fd}
  {
    var init := entries[..|entries| - 1];
    forall fd | fd in FdsOf(entries) ensures fd in FdsOf(init) + {entries[|entries| - 1].fd} {
      var i :| 0 <= i < |entries| && entries[i].fd == fd;
      if i < |entries| - 1 { assert init[i] == entries[i]; }
    }
    forall fd | fd in FdsOf(init) ensures fd in FdsOf(entries) {
      var i :| 0 <= i < |init| && init[i].fd == fd;
      assert entries[i] == init[i];
    }
  }

  /** Attaching registers exactly the listed descriptors besides the registered ones. */
  lemma {:induction false} AttachAllKeys(registered: map<int, bv32>, entries: seq<PollFd>)
    ensures AttachAll(registered, entries).Keys == registered.Keys + FdsOf(entries)
  {
    if entries != [] {
      AttachAllKeys(registered, entries[..|entries| - 1]);
      FdsOfSnoc(entries);
    }
  }

  /** Attaching never changes the events of a descriptor that was already registered. */
  lemma {:induction false} AttachAllKeepsRegistered(registered: map<int, bv32>, entries: seq<PollFd>, fd: int)
    requires fd in registered
    ensures fd in AttachAll(registered, entries) && AttachAll(registered, entries)[fd] == registered[fd]
  {
    if entries != [] {
      AttachAllKeepsRegistered(registered, entries[..|entries| - 1], fd);
    }
  }

  /** A newly registered descriptor carries the events of its first entry in the list. */
  lemma {:induction false} AttachAllUsesFirstEntry(registered: map<int, bv32>, entries: seq<PollFd>, fd: int)
    requires fd in AttachAll(registered, entries) && fd !in registered
    ensures FirstEntry(entries, |entries|, fd) < |entries|
    ensures AttachAll(registered, entries)[fd] == AttachMask(entries[FirstEntry(entries, |entries|, fd)])
  {
    var n := |entries| - 1;
    var init := entries[..n];
    assert entries[..n] == init[..n];
    FirstEntrySamePrefix(init, entries, n, fd);
    if fd in AttachAll(registered, init) {
      AttachAllUsesFirstEntry(registered, init, fd);
      assert entries[FirstEntry(init, n, fd)] == init[FirstEntry(init, n, fd)];
    } else {
      AttachAllKeys(registered, init);
      assert fd !in FdsOf(init);
      assert FirstEntry(init, n, fd) == n;
    }
  }

  /** `FirstEntry` looks only at the first `n` entries. */
  lemma {:induction false} FirstEntrySamePrefix(a: seq<PollFd>, b: seq<PollFd>, n: nat, fd: int)
    requires n <= |a| && n <= |b| && a[..n] == b[..n]
    ensures FirstEntry(a, n, fd) == FirstEntry(b, n, fd)
  {
    if n > 0 {
      assert a[..n - 1] == a[..n][..n - 1] && b[..n - 1] == b[..n][..n - 1];
      assert a[n - 1] == a[..n][n - 1] && b[n - 1] == b[..n][n - 1];
      FirstEntrySamePrefix(a, b, n - 1, fd);
    }
  }

  class MessagePump {
    /** `m_pollFds`: null until the first `Prepare`. */
    var pollFds: array?<PollFd>
    /** `m_pollFdsCapacity` and `m_pollFdsSize`. */
    var capacity: nat
    var size: nat
    /** `m_looperAttachedPollFds`. */
    var attached: set<int>
    /** The looper's registrations made by the pump: descriptor to the event mask it was added with. */
    var looperFds: map<int, bv32>
    /** Whether a dispatch has been signalled through the pump's eventfd. */
    var dispatchScheduled: bool

    ghost predicate Valid()
      reads this
    {
      (pollFds == null ==> capacity == 0 && size == 0)
      && (pollFds != null ==> capacity == pollFds.Length && size <= capacity)
      && attached == looperFds.Keys
    }

    function Entries(): (s: seq<PollFd>)
      reads this, pollFds
      requires Valid()
    {
      if pollFds == null then [] else pollFds[..size]
    }

    /**
     * The constructor, against a context whose poll list is `contextFds`: it
     * starts with no buffer and nothing attached, then runs `prepare`, so the
     * new pump holds GLib's poll list with cleared conditions and has
     * attached every descriptor of it to the looper.
     */
    constructor (contextFds: seq<PollFd>)
      ensures Valid() && pollFds != null && !dispatchScheduled
      ensures size == |contextFds| && Entries() == Cleared(contextFds)
      ensures attached == FdsOf(contextFds)
      ensures looperFds == AttachAll(map[], contextFds)
    {
      pollFds := null;
      capacity := 0;
      size := 0;
      attached := {};
      looperFds := map[];
      dispatchScheduled := false;
      new;
      Prepare(contextFds);
      assert looperFds == AttachAll(map[], contextFds) - {};
    }

    /**
     * The destructor: the pending dispatch signal is consumed (`flush`), every
     * attached descriptor is removed from the looper and the buffer is freed.
     */
    method Destroy()
      requires Valid()
      modifies this
      ensures Valid()
      ensures pollFds == null && size == 0 && capacity == 0
      ensures attached == {} && looperFds == map[] && !dispatchScheduled
    {
      dispatchScheduled := false;
      Detach(attached);
      assert looperFds.Keys == {};
      size := 0;
      capacity := 0;
      pollFds := null;
    }

    /**
     * The looper callback of the dispatch eventfd: the signal is consumed,
     * GLib dispatches, and the pump prepares again against the poll list
     * `contextFds` the context then reports.
     */
    method OnDispatchSignal(contextFds: seq<PollFd>)
      requires Valid()
      modifies this, pollFds
      ensures Valid() && pollFds != null && !dispatchScheduled
      ensures size == |contextFds| && Entries() == Cleared(contextFds)
      ensures attached == FdsOf(contextFds)
      ensures looperFds == AttachAll(old(looperFds), contextFds) - (old(attached) - FdsOf(contextFds))
    {
      dispatchScheduled := false;
      Prepare(contextFds);
    }

    /**
     * `g_main_context_query` against the context whose current poll list is
     * `contextFds`: it writes as many entries as the buffer holds and returns
     * how many there are.
     */
    method Query(contextFds: seq<PollFd>) returns (n: nat)
      requires pollFds != null
      modifies pollFds
      ensures n == |contextFds|
      ensures forall i :: 0 <= i < pollFds.Length && i < |contextFds| ==> pollFds[i] == contextFds[i]
    {
      var i := 0;
      while i < pollFds.Length && i < |contextFds|
        invariant 0 <= i <= pollFds.Length
        invariant i <= |contextFds|
        invariant forall k :: 0 <= k < i ==> pollFds[k] == contextFds[k]
      {
        pollFds[i] := contextFds[i];
        i := i + 1;
      }
      n := |contextFds|;
    }

    /**
     * `prepare`: grow the buffer until the whole poll list fits, clear every
     * entry's reported conditions, attach the descriptors that are new to the
     * looper (with their translated events plus OUTPUT) and detach the
     * attached descriptors that GLib no longer lists.
     */
    method Prepare(contextFds: seq<PollFd>)
      requires Valid()
      modifies this, pollFds
      ensures Valid() && pollFds != null
      ensures size == |contextFds| && capacity >= size
      ensures Entries() == Cleared(contextFds)
      ensures attached == FdsOf(contextFds)
      ensures forall fd :: fd in looperFds && fd in old(looperFds) ==> looperFds[fd] == old(looperFds)[fd]
      ensures forall fd :: fd in looperFds && fd !in old(looperFds) ==>
                var j := FirstEntry(contextFds, |contextFds|, fd);
                j < |contextFds| && looperFds[fd] == AttachMask(contextFds[j])
      ensures looperFds == AttachAll(old(looperFds), contextFds) - (old(attached) - FdsOf(contextFds))
      ensures dispatchScheduled == old(dispatchScheduled)
    {
      QueryAll(contextFds);
      var unused := AttachEntries(contextFds);
      Detach(unused);
      AttachAllKeys(old(looperFds), contextFds);
      forall fd | fd in looperFds && fd in old(looperFds) ensures looperFds[fd] == old(looperFds)[fd] {
        AttachAllKeepsRegistered(old(looperFds), contextFds, fd);
      }
      forall fd | fd in looperFds && fd !in old(looperFds)
        ensures FirstEntry(contextFds, |contextFds|, fd) < |contextFds|
        ensures looperFds[fd] == AttachMask(contextFds[FirstEntry(contextFds, |contextFds|, fd)])
      {
        AttachAllUsesFirstEntry(old(looperFds), contextFds, fd);
      }
    }

    /** The allocation and the query loop of `prepare`: afterwards the buffer holds the whole poll list. */
    method QueryAll(contextFds: seq<PollFd>)
      requires Valid()
      modifies this`pollFds, this`capacity, this`size, pollFds
      ensures Valid() && pollFds != null
      ensures pollFds == old(pollFds) || fresh(pollFds)
      ensures size == |contextFds| && capacity >= size
      ensures pollFds[..size] == contextFds
    {
      if pollFds == null {
        capacity := 1;
        pollFds := new PollFd[1](_ => PollFd(0, 0, 0));
      }
      var n := Query(contextFds);
      while n > capacity
        invariant pollFds != null && capacity == pollFds.Length
        invariant pollFds == old(pollFds) || fresh(pollFds)
        invariant n == |contextFds|
        invariant forall i :: 0 <= i < pollFds.Length && i < |contextFds| ==> pollFds[i] == contextFds[i]
        decreases n - capacity
      {
        capacity := n;
        pollFds := new PollFd[capacity](_ => PollFd(0, 0, 0));
        n := Query(contextFds);
      }
      size := n;
      assert pollFds[..size] == contextFds;
    }

    /**
     * The loop of `prepare` over the poll list: clears each entry's reported
     * conditions and attaches each descriptor that is not attached yet.
     * Returns the attached descriptors that the list no longer names.
     */
    method AttachEntries(contextFds: seq<PollFd>) returns (unused: set<int>)
      requires Valid() && pollFds != null
      requires size == |contextFds| && pollFds[..size] == contextFds
      modifies pollFds, this`attached, this`looperFds
      ensures Valid()
      ensures pollFds[..size] == Cleared(contextFds)
      ensures looperFds == AttachAll(old(looperFds), contextFds)
      ensures unused == old(attached) - FdsOf(contextFds)
    {
      unused := attached;
      var i := 0;
      while i < size
        invariant 0 <= i <= size
        invariant forall k :: 0 <= k < i ==> pollFds[k] == contextFds[k].(revents := 0)
        invariant forall k :: i <= k < size ==> pollFds[k] == contextFds[k]
        invariant looperFds == AttachAll(old(looperFds), contextFds[..i])
        invariant attached == looperFds.Keys
        invariant unused == old(attached) - FdsOf(contextFds[..i])
      {
        var entry := pollFds[i];
        pollFds[i] := entry.(revents := 0);
        unused := unused - {entry.fd};
        AttachPrefixStep(old(looperFds), contextFds, i);
        if entry.fd !in attached {
          attached := attached + {entry.fd};
          looperFds := looperFds[entry.fd := AttachMask(entry)];
        }
        i := i + 1;
      }
      assert contextFds[..size] == contextFds;
      assert pollFds[..size] == Cleared(contextFds);
    }

    /** Removes each of `stale` from the looper and from the attached set. */
    method Detach(stale: set<int>)
      requires attached == looperFds.Keys
      modifies this`attached, this`looperFds
      ensures attached == looperFds.Keys
      ensures attached == old(attached) - stale
      ensures looperFds == old(looperFds) - stale
    {
      var rest := stale;
      while rest != {}
        invariant attached == looperFds.Keys
        invariant attached == old(attached) - (stale - rest)
        invariant looperFds == old(looperFds) - (stale - rest)
        decreases rest
      {
        NonEmptyHasMember(rest);
        var fd :| fd in rest;
        looperFds := looperFds - {fd};
        attached := attached - {fd};
        rest := rest - {fd};
      }
    }

    /**
     * The callback the looper runs when an attached descriptor has events: the
     * first entry for that descriptor records them as GLib conditions, no other
     * entry changes, and a dispatch is scheduled.
     */
    method OnFdEvent(fd: int, events: bv32)
      requires Valid()
      modifies pollFds, this`dispatchScheduled
      ensures Valid() && dispatchScheduled
      ensures var j := FirstEntry(old(Entries()), size, fd);
              Entries() == if j < size then old(Entries())[j := old(Entries())[j].(revents := LooperEventsToGLibEvents(events))]
                           else old(Entries())
    {
      if pollFds != null {
        ghost var before := pollFds[..size];
        var j := 0;
        while j < size
          invariant 0 <= j <= size
          invariant pollFds[..size] == before
          invariant forall k :: 0 <= k < j ==> before[k].fd != fd
        {
          if pollFds[j].fd == fd {
            pollFds[j] := pollFds[j].(revents := LooperEventsToGLibEvents(events));
            break;
          }
          j := j + 1;
        }
      }
      dispatchScheduled := true;
    }
  }
}
