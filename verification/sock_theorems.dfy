/** What the write path promises, under every interleaving. */
module SocketTheorems {
  import opened Wrappers
  import opened SocketWrites
  import opened SocketProof

  /** The package partly on the wire, which the next write will continue, and how much of it is there. */
  function Current(s: State): Option<Item> {
    if s.direct.Some? then s.direct
    else if s.high != [] then Some(s.high[0])
    else if s.low != [] && s.server.Raise? then Some(s.low[0])
    else None
  }

  /** No tearing. In every reachable state the bytes on the wire are whole packages followed by a part of the
      one package to be continued: the one kept from a direct write or at the head of the high list. Nothing
      else on the lists has been begun, and only one thread at a time can write. */
  lemma NoTearing(workers: nat, moves: seq<Move>)
    ensures var s := Run(Init(workers), moves);
            && s.wire == Bytes(s.finished) + (if Current(s).Some? then Current(s).value.p.data[..Current(s).value.off] else [])
            && (s.direct.Some? ==> AllFresh(s.high)) && TailFresh(s.high)
            && (!s.server.Raise? ==> AllFresh(s.low)) && TailFresh(s.low)
            && (forall i, j :: 0 <= i < |s.workers| && 0 <= j < |s.workers| && s.workers[i].Write? && s.workers[j].Write? ==> i == j)
            && (forall i :: 0 <= i < |s.workers| && s.workers[i].Write? ==> !s.server.SendHigh? && !s.server.SendLow?)
  {
    hide Run, Bytes, Mine, Knowing, Counted, Sized, Sorted, Awake, Sane, Ordered;
    RunKeeps(workers, moves);
    var s := Run(Init(workers), moves);
    if s.direct.Some? && s.high != [] { assert s.high[0].off == 0; }
    if s.low != [] && !s.server.Raise? { assert s.low[0].off == 0; }
  }

  /** Order on the wire. A sender's packages of one priority leave in the order they were handed in, each once:
      those written are a prefix, and all others are still on their way, in order. */
  lemma SenderOrder(workers: nat, moves: seq<Move>, k: nat, low: bool)
    ensures var s := Run(Init(workers), moves);
            && Mine(s.finished, k, low) <= Mine(s.submitted, k, low)
            && Stream(s, k, low) == Mine(s.submitted, k, low)
  {
    hide Run, Mine;
    RunKeeps(workers, moves);
  }

  /** When everything has come to rest, everything handed in is on the wire, whole. */
  lemma AllDelivered(workers: nat, moves: seq<Move>, k: nat, low: bool)
    ensures var s := Run(Init(workers), moves);
            s.high == [] && s.low == [] && s.direct == None && s.pipe == [] && s.server == Poll
            && (forall i :: 0 <= i < |s.workers| ==> s.workers[i] == Ready) ==>
              s.wire == Bytes(s.finished) && Mine(s.finished, k, low) == Mine(s.submitted, k, low) && s.sending == 0
  {
    hide Run, Bytes;
    RunKeeps(workers, moves);
    var s := Run(Init(workers), moves);
    if s.high == [] && s.low == [] && s.direct == None && s.pipe == [] && s.server == Poll
       && (forall i :: 0 <= i < |s.workers| ==> s.workers[i] == Ready) {
      NoPosting(s.workers);
      assert Pkgs([]) == [];
    }
  }

  /** No package is stranded: while anything is unsent the write event is on, or the request for it is in the
      pipe, or a worker is about to send it. wb_size is what the lists have left. */
  lemma NothingStranded(workers: nat, moves: seq<Move>)
    ensures var s := Run(Init(workers), moves);
            && s.wbSize == Unsent(s.high) + Unsent(s.low)
            && (s.high != [] || s.low != [] ==> s.writing)
            && (s.direct.Some? ==>
                  s.writing || EnableWrite in s.pipe || exists i :: 0 <= i < |s.workers| && Asking(s.workers[i]))
  {
    hide Run, Unsent;
    RunKeeps(workers, moves);
  }

  /** The assertions of send_buffer_, raise_uncomplete and dec_sending_ref, exactly: from a reachable state a step
      fails one of them if and only if the socket thread starts to drain while a package whose bytes are apart from
      its pointer is first on the low list. */
  lemma AssertionsExactly(workers: nat, moves: seq<Move>, m: Move)
    ensures var s := Run(Init(workers), moves);
            Step(s, m).ok <==> s.ok && !(m.OfServer? && s.server.Merge? && s.low != [] && s.low[0].p.apart)
  {
    hide Run, OnWire, Awake, Sane, Ordered, Knowing, Sorted;
    RunKeeps(workers, moves);
    var s := Run(Init(workers), moves);
    match m
    case OfWorker(i, c) => if i < |s.workers| { FrameEffect(s, i, s.workers[i], c); }
    case OfServer(c) => ServerExactly(s, c);
  }

  lemma NoAssertion(s: State, c: Choice, p: Package)
    ensures TakeCommand(s).ok == s.ok && AppendPackage(s, p).ok == s.ok
    ensures SendFromHigh(s, c).ok == s.ok && SendFromLow(s, c).ok == s.ok
  {
    hide Written;
  }

  lemma ServerExactly(s: State, c: Choice)
    requires Whole(s) && Counted(s) && Sized(s)
    ensures ServerStep(s, c).ok <==> s.ok && !(s.server.Merge? && s.low != [] && s.low[0].p.apart)
  {
    hide PipePkgs, Posting, TakeCommand, AppendPackage, SendFromHigh, SendFromLow;
    NoAssertion(s, c, if s.server.Append? then s.server.p else Package(0, false, false, []));
  }

  /** Packages handed in as plain memory, or at high priority, never upset an assertion. */
  lemma AssertionsHold(workers: nat, moves: seq<Move>)
    ensures var s := Run(Init(workers), moves);
            AllPlain(s.submitted) ==> s.ok
  {
    hide Run;
    RunKeeps(workers, moves);
  }

  // ----- where the first assertion fails -----

  function LowRequest(apart: bool): seq<Move> {
    [OfWorker(0, Submit(true, apart, [0])), OfWorker(0, Command), OfWorker(0, Command),
     OfServer(Command), OfServer(Command), OfServer(Command)]
  }

  lemma RunMore(s: State, moves: seq<Move>, m: Move)
    ensures Run(s, moves + [m]) == Step(Run(s, moves), m)
  {
    assert (moves + [m])[..|moves|] == moves;
  }

  /** A low-priority request of one worker: into the pipe, and out of it. */
  lemma RequestSent(s: State, apart: bool)
    requires |s.workers| == 1 && s.workers[0] == Ready && s.pipe == [] && s.sending == 0
    ensures var r, p := LowRequest(apart), Package(0, true, apart, [0]);
            Step(Step(Step(s, r[0]), r[1]), r[2])
            == s.(submitted := s.submitted + [p], sending := 1, pipe := [Data(p)])
  {
    var r, p := LowRequest(apart), Package(0, true, apart, [0]);
    var s1 := s.(submitted := s.submitted + [p], workers := [Count(p)]);
    assert Step(s, r[0]) == s1;
    assert Step(s1, r[1]) == s1.(sending := 1, workers := [Post(p)]);
    assert s.workers == [Ready];
  }

  lemma RequestTaken(s: State, p: Package, m: Move)
    requires s.server == Poll && s.pipe == [Data(p)] && s.sending == 1 && m == OfServer(Command)
    ensures Step(Step(Step(s, m), m), m) == AppendPackage(s.(pipe := [], server := Append(p)), p).(sending := 0, server := Poll)
  {
    assert Step(s, m) == s.(pipe := [], server := Append(p));
  }

  lemma RequestRuns(s: State, apart: bool)
    requires |s.workers| == 1 && s.workers[0] == Ready && s.server == Poll && s.pipe == [] && s.sending == 0 && s.ok
    ensures var t := Run(s, LowRequest(apart));
            && t.workers == s.workers && t.server == Poll && t.pipe == [] && t.sending == 0 && t.ok && t.lock == s.lock
            && (if s.high == [] && s.low == [] then t.writing && t.low == [] && |t.high| == 1
                else t.writing == s.writing && t.high == s.high && t.low == s.low + [Buffer(Package(0, true, apart, [0]), 0)])
  {
    hide Step;
    var r, p := LowRequest(apart), Package(0, true, apart, [0]);
    RequestSent(s, apart);
    var s3 := s.(submitted := s.submitted + [p], sending := 1, pipe := [Data(p)]);
    RequestTaken(s3, p, OfServer(Command));
    Unroll(s, r);
  }

  lemma Unroll(s: State, r: seq<Move>)
    requires |r| == 6
    ensures Run(s, r) == Step(Step(Step(Step(Step(Step(s, r[0]), r[1]), r[2]), r[3]), r[4]), r[5])
  {
    hide Step;
    assert r[..5][..4] == r[..4] && r[..4][..3] == r[..3] && r[..3][..2] == r[..2] && r[..2][..1] == r[..1] && r[..1][..0] == [];
    assert Run(s, r[..1]) == Step(s, r[0]);
    assert Run(s, r[..2]) == Step(Run(s, r[..1]), r[1]);
    assert Run(s, r[..3]) == Step(Run(s, r[..2]), r[2]);
    assert Run(s, r[..4]) == Step(Run(s, r[..3]), r[3]);
    assert Run(s, r[..5]) == Step(Run(s, r[..4]), r[4]);
  }

  lemma RunConcat(s: State, x: seq<Move>, y: seq<Move>)
    ensures Run(s, x + y) == Run(Run(s, x), y)
  {
    if y == [] {
      assert x + y == x;
    } else {
      assert (x + y)[..|x + y| - 1] == x + y[..|y| - 1];
      RunConcat(s, x, y[..|y| - 1]);
    }
  }

  /** One worker hands in two low-priority user objects; the second waits on the low list when the socket
      thread begins to drain, and the assertion takes it for a package already begun. */
  lemma ApartUpsets()
    ensures !Run(Init(1), LowRequest(true) + LowRequest(true) + [OfServer(Event)] + [OfServer(Event)]).ok
  {
    hide Run, LowRequest;
    var s := Init(1);
    assert s.workers == [Ready];
    var a, b := LowRequest(true), LowRequest(true);
    RequestRuns(s, true);
    var s1 := Run(s, a);
    RequestRuns(s1, true);
    var s2 := Run(s1, b);
    RunConcat(s, a, b);
    RunMore(s, a + b, OfServer(Event));
    RunMore(s, a + b + [OfServer(Event)], OfServer(Event));
    var s3 := Step(s2, OfServer(Event));
    assert s3.server.Merge? && s3.low[0].p.apart;
  }
}
