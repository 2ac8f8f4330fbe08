/** The socket thread's half of the write path as it is coded: one socket whose lists and counters send_buffer and
    send_socket update in place. Each method is shown to be a run of the socket thread's steps, so that what is
    proved of all runs holds of it. */
module SocketBuffers {
  import opened Wrappers
  import opened SocketWrites
  import opened SocketProof
  import opened SocketTheorems

  /** Steps of the socket thread, one after another. */
  function Serve(s: State, cs: seq<Choice>): State {
    if cs == [] then s else ServerStep(Serve(s, cs[..|cs| - 1]), cs[|cs| - 1])
  }

  lemma ServeMore(s: State, cs: seq<Choice>, c: Choice)
    ensures Serve(s, cs + [c]) == ServerStep(Serve(s, cs), c)
  {
    assert (cs + [c])[..|cs|] == cs;
  }

  function Moves(cs: seq<Choice>): seq<Move> { seq(|cs|, i requires 0 <= i < |cs| => OfServer(cs[i])) }

  /** They continue a run. */
  lemma {:induction false} ServeRuns(s: State, cs: seq<Choice>)
    ensures Run(s, Moves(cs)) == Serve(s, cs)
  {
    if cs != [] {
      var n := |cs| - 1;
      ServeRuns(s, cs[..n]);
      assert Moves(cs)[..n] == Moves(cs[..n]);
    }
  }

  ghost predicate Reachable(s: State) { exists n, moves :: s == Run(Init(n), moves) }

  lemma ServeReaches(s: State, cs: seq<Choice>)
    requires Reachable(s)
    ensures Reachable(Serve(s, cs))
  {
    var n, moves :| s == Run(Init(n), moves);
    ServeRuns(s, cs);
    RunConcat(Init(n), moves, Moves(cs));
    assert Serve(s, cs) == Run(Init(n), moves + Moves(cs));
  }

  lemma PlainHolds(s: State)
    requires Reachable(s)
    ensures AllPlain(s.submitted) ==> s.ok
  {
    var n, moves :| s == Run(Init(n), moves);
    AssertionsHold(n, moves);
  }

  /** struct wb_list */
  class WbList {
    var items: seq<Item>

    constructor ()
      ensures items == []
    {
      items := [];
    }
  }

  class Socket {
    const high: WbList
    const low: WbList
    var direct: Option<Item>
    var wbSize: int
    var writing: bool
    var lock: Lock
    var wire: seq<Byte>
    ghost var finished: seq<Package>
    /** Whether every assertion so far held. */
    ghost var ok: bool
    /** The senders, the pipe and the counter of sending, which are not the socket thread's. */
    ghost var others: State

    constructor ()
      ensures fresh(high) && fresh(low) && high != low && At(Poll) == Init(0)
    {
      high := new WbList();
      low := new WbList();
      direct, wbSize, writing, lock, wire, finished, ok := None, 0, false, Free, [], [], true;
      others := Init(0);
    }

    /** The state of the model when the socket thread is at `server`. */
    ghost function At(server: Server): State
      reads this, high, low
    {
      others.(high := high.items, low := low.items, direct := direct, wbSize := wbSize, writing := writing,
              lock := lock, wire := wire, finished := finished, ok := ok, server := server)
    }

    /** One write() on the first buffer of a list, and what send_list_tcp makes of its result. */
    method WriteHead(list: WbList) returns (blocked: bool, ghost c: Choice)
      requires list in {high, low} && high != low && list.items != []
      modifies list, this`wire, this`wbSize, this`finished
      ensures list == high ==> At(if blocked then Unlock else SendHigh) == ServerStep(old(At(SendHigh)), c)
      ensures list == low ==> At(if blocked then Raise else SendLow) == ServerStep(old(At(SendLow)), c)
      ensures blocked ==> list.items != []
      ensures |list.items| == if blocked then old(|list.items|) else old(|list.items|) - 1
    {
      var it := list.items[0];
      var rest := |it.p.data| - it.off;
      var sz: nat :| sz <= rest;
      c := Takes(sz);
      wire := wire + it.p.data[it.off..it.off + sz];
      wbSize := wbSize - sz;
      blocked := sz != rest;
      if blocked {
        list.items := list.items[0 := Buffer(it.p, it.off + sz)];
      } else {
        list.items := list.items[1..];
        finished := finished + [it.p];
      }
    }

    /** send_list_tcp on the high list: it stops where a write takes less than it was offered. */
    method SendHighList() returns (ghost cs: seq<Choice>)
      requires high != low
      modifies this`wire, this`wbSize, this`finished, high
      ensures Serve(old(At(SendHigh)), cs)
              == At(if high.items != [] then Unlock else if low.items != [] then SendLow else Finish)
    {
      hide ServerStep;
      cs := [];
      while high.items != []
        invariant Serve(old(At(SendHigh)), cs) == At(SendHigh)
        decreases |high.items|
      {
        var blocked, c := WriteHead(high);
        ServeMore(old(At(SendHigh)), cs, c);
        cs := cs + [c];
        if blocked { return; }
      }
      ServeMore(old(At(SendHigh)), cs, Command);
      HighEmpty();
      cs := cs + [Command];
    }

    lemma HighEmpty()
      requires high.items == []
      ensures ServerStep(At(SendHigh), Command) == At(if low.items != [] then SendLow else Finish)
    {
    }

    method SendLowList() returns (ghost cs: seq<Choice>)
      requires high != low
      modifies this`wire, this`wbSize, this`finished, low
      ensures Serve(old(At(SendLow)), cs) == At(if low.items != [] then Raise else Finish)
    {
      hide ServerStep;
      cs := [];
      while low.items != []
        invariant Serve(old(At(SendLow)), cs) == At(SendLow)
        decreases |low.items|
      {
        var blocked, c := WriteHead(low);
        ServeMore(old(At(SendLow)), cs, c);
        cs := cs + [c];
        if blocked { return; }
      }
      ServeMore(old(At(SendLow)), cs, Command);
      LowEmpty();
      cs := cs + [Command];
    }

    lemma LowEmpty()
      requires low.items == []
      ensures ServerStep(At(SendLow), Command) == At(Finish)
    {
    }

    /** list_uncomplete */
    predicate ListUncomplete(list: WbList)
      reads list
    {
      list.items != [] && (list.items[0].off != 0 || list.items[0].p.apart)
    }

    /** raise_uncomplete */
    method RaiseUncomplete()
      requires high != low && low.items != []
      modifies high, low, this`ok
      ensures high.items == [old(low.items[0])] && low.items == old(low.items[1..])
      ensures ok <==> old(ok && high.items == [])
    {
      var tmp := low.items[0];
      low.items := low.items[1..];
      ok := ok && high.items == [];
      high.items := [tmp];
    }

    /** The end of send_buffer_ when the low list was not sent whole. */
    method RaiseIfBegun() returns (ghost c: Choice)
      requires high != low && low.items != []
      modifies high, low, this`ok
      ensures At(Unlock) == ServerStep(old(At(Raise)), c)
    {
      c := Command;
      if ListUncomplete(low) {
        RaiseUncomplete();
      }
    }

    /** The end of send_buffer_ when both lists are sent. */
    method FinishWriting() returns (ghost c: Choice)
      requires high != low
      modifies this`ok, this`writing
      ensures At(Unlock) == ServerStep(old(At(Finish)), c)
    {
      c := Command;
      ok := ok && high.items == [] && low.items == [] && wbSize == 0;
      writing := false;
    }

    /** What send_buffer puts before the high list, and the first assertion of send_buffer_. */
    method MergeDirectBuffer() returns (ghost c: Choice)
      requires high != low
      modifies high, this`direct, this`wbSize, this`ok
      ensures At(SendHigh) == ServerStep(old(At(Merge)), c)
    {
      c := Command;
      if direct.Some? {
        var buf := direct.value;
        wbSize := wbSize + (|buf.p.data| - buf.off);
        high.items := [buf] + high.items;
        direct := None;
      }
      ok := ok && !ListUncomplete(low);
    }

    /** send_buffer_ behind that assertion */
    method SendLists() returns (ghost cs: seq<Choice>)
      requires high != low
      modifies this, high, low
      ensures Serve(old(At(SendHigh)), cs) == At(Unlock) && lock == old(lock)
    {
      hide Serve, ServerStep;
      ghost var s := At(SendHigh);
      cs := SendHighList();
      if high.items == [] {
        ghost var more: seq<Choice> := [];
        ghost var c: Choice;
        if low.items != [] {
          ghost var t := At(SendLow);
          more := SendLowList();
          ServeJoin(s, cs, more);
          cs := cs + more;
          if low.items != [] {
            c := RaiseIfBegun();
            ServeMore(s, cs, c);
            cs := cs + [c];
            return;
          }
        }
        c := FinishWriting();
        ServeMore(s, cs, c);
        cs := cs + [c];
      }
    }

    /** send_buffer: nothing when a worker holds the lock; else as many steps as it takes until the socket thread
        is back at its poll. */
    method SendBuffer() returns (ghost cs: seq<Choice>)
      requires high != low && writing
      modifies this, high, low
      ensures Serve(old(At(Poll)), cs) == At(Poll)
      ensures Reachable(old(At(Poll))) ==> Reachable(At(Poll)) && (AllPlain(At(Poll).submitted) ==> ok)
      ensures old(lock) != Free ==> cs == []
      ensures lock == old(lock)
    {
      ghost var s := At(Poll);
      cs := [];
      if lock != Free {
        if Reachable(s) { PlainHolds(s); }
        return;
      }
      lock := BySocket;
      ghost var start := [Event];
      assert start[..0] == [] && Serve(s, start) == At(Merge);
      hide Serve, ServerStep;
      ghost var c := MergeDirectBuffer();
      cs := start + [c];
      ServeMore(s, start, c);
      ghost var more := SendLists();
      ServeJoin(s, cs, more);
      cs := cs + more;
      lock := Free;
      ServeMore(s, cs, Command);
      Unlocked(s, cs);
      cs := cs + [Command];
      if Reachable(s) {
        ServeReaches(s, cs);
        PlainHolds(Serve(s, cs));
      }
    }

    lemma Unlocked(s: State, cs: seq<Choice>)
      requires Serve(s, cs) == At(Unlock).(lock := BySocket) && lock == Free
      ensures ServerStep(Serve(s, cs), Command) == At(Poll)
    {
    }

    /** append_sendbuffer, append_sendbuffer_low */
    method AppendSendbuffer(list: WbList, p: Package)
      requires list in {high, low} && high != low
      modifies list, this`wbSize
      ensures list.items == old(list.items) + [Buffer(p, 0)] && wbSize == old(wbSize) + |p.data|
    {
      list.items := list.items + [Buffer(p, 0)];
      wbSize := wbSize + |p.data|;
    }

    /** send_socket: a request of the pipe. */
    method SendSocket(p: Package)
      requires high != low
      modifies this`wbSize, this`writing, high, low
      ensures At(Release) == ServerStep(old(At(Server.Append(p))), Command)
    {
      if high.items == [] && low.items == [] {
        AppendSendbuffer(high, p);
        writing := true;
      } else if p.low {
        AppendSendbuffer(low, p);
      } else {
        AppendSendbuffer(high, p);
      }
    }
  }

  lemma {:induction false} ServeJoin(s: State, a: seq<Choice>, b: seq<Choice>)
    ensures Serve(s, a + b) == Serve(Serve(s, a), b)
    decreases |b|
  {
    if b == [] {
      assert a + b == a;
    } else {
      var n := |b| - 1;
      assert (a + b)[..|a + b| - 1] == a + b[..n];
      ServeJoin(s, a, b[..n]);
    }
  }
}
