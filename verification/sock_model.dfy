/** The write path of one open TCP socket in socket_server.c: workers that write directly under a try-lock or
    send requests through the pipe, and the socket thread that drains two lists. One step is one access to
    shared memory, one system call, or one section only its own thread can see; the conditions of
    can_direct_write are read one by one. */
module SocketWrites {
  import opened Wrappers

  type Byte = bv8

  /** A package of one sender. `apart` says that its bytes start at another address than the pointer handed in,
      as those of a user object may (send_object_init). */
  datatype Package = Package(sender: nat, low: bool, apart: bool, data: seq<Byte>)

  /** struct write_buffer: off bytes are written. */
  datatype Buffer = Buffer(p: Package, off: nat)
  type Item = b: Buffer | b.off <= |b.p.data| witness Buffer(Package(0, false, false, []), 0)

  datatype Request = Data(p: Package) | EnableWrite

  datatype Lock = Free | BySocket | ByWorker(i: nat)

  /** Where a worker is in socket_server_send; `locked` tells the second can_direct_write from the first. */
  datatype Worker =
    | Ready
    | LookHigh(p: Package, locked: bool) | LookLow(p: Package, locked: bool)
    | LookDirect(p: Package, locked: bool) | LookSending(p: Package, locked: bool)
    | TryLock(p: Package)
    | Write(p: Package)
    | Back(p: Package)            // about to unlock and send a request instead
    | Count(p: Package)           // inc_sending_ref
    | Post(p: Package)            // send_request
    | Done                        // about to unlock
    | Ask                         // about to unlock, then ask for the write event
    | AskPost

  /** Where the socket thread is. */
  datatype Server =
    | Poll
    | Append(p: Package)          // send_socket
    | Release                     // dec_sending_ref
    | Merge | SendHigh | SendLow | Raise | Finish | Unlock // send_buffer

  datatype State = State(
    high: seq<Item>, low: seq<Item>, direct: Option<Item>, wbSize: int,
    sending: nat, writing: bool, pipe: seq<Request>, lock: Lock,
    server: Server, workers: seq<Worker>,
    wire: seq<Byte>, finished: seq<Package>, submitted: seq<Package>, ok: bool)

  /** What is left open: what a worker sends, how many bytes a write takes, what the socket thread turns to. */
  datatype Choice = Submit(low: bool, apart: bool, data: seq<Byte>) | Takes(n: nat) | Command | Event

  function Check(s: State, c: bool): State { s.(ok := s.ok && c) }

  function Least(a: nat, b: nat): nat { if a < b then a else b }

  /** The result of write() on n bytes: any count up to n, 0 when it fails or would block. */
  function Written(c: Choice, n: nat): (k: nat)
    ensures k <= n
  {
    if c.Takes? then Least(c.n, n) else 0
  }

  // ----- workers -----

  /** can_direct_write fails. */
  function Refuse(p: Package, locked: bool): Worker { if locked then Back(p) else Count(p) }

  /** The direct write: what is left over is kept for the socket thread. */
  function WriteDirect(s: State, p: Package, n: nat): (State, Worker)
    requires n <= |p.data|
  {
    var t := s.(wire := s.wire + p.data[..n]);
    if n == |p.data| then (t.(finished := s.finished + [p]), Done)
    else (t.(direct := Some(Buffer(p, n))), Ask)
  }

  /** The step of worker i, which is at w: what becomes of the shared state, and where it is then. */
  function WorkerMove(s: State, i: nat, w: Worker, c: Choice): (State, Worker) {
    match w
    case Ready =>
      if c.Submit? then
        var p := Package(i, c.low, c.apart, c.data);
        (s.(submitted := s.submitted + [p]), if c.low then Count(p) else LookHigh(p, false))
      else (s, w)
    case LookHigh(p, locked) => (s, if s.high == [] then LookLow(p, locked) else Refuse(p, locked))
    case LookLow(p, locked) => (s, if s.low == [] then LookDirect(p, locked) else Refuse(p, locked))
    case LookDirect(p, locked) => (s, if s.direct == None then LookSending(p, locked) else Refuse(p, locked))
    case LookSending(p, locked) =>
      (s, if s.sending != 0 then Refuse(p, locked) else if locked then Write(p) else TryLock(p))
    case TryLock(p) => if s.lock == Free then (s.(lock := ByWorker(i)), LookHigh(p, true)) else (s, Count(p))
    case Write(p) => WriteDirect(s, p, Written(c, |p.data|))
    case Back(p) => (s.(lock := Free), Count(p))
    case Count(p) => if s.sending >= 0xffff then (s, w) else (s.(sending := s.sending + 1), Post(p))
    case Post(p) => (s.(pipe := s.pipe + [Data(p)]), Ready)
    case Done => (s.(lock := Free), Ready)
    case Ask => (s.(lock := Free), AskPost)
    case AskPost => (s.(pipe := s.pipe + [EnableWrite]), Ready)
  }

  function WorkerStep(s: State, i: nat, c: Choice): State
    requires i < |s.workers|
  {
    var (t, w) := WorkerMove(s, i, s.workers[i], c);
    t.(workers := s.workers[i := w])
  }

  // ----- the socket thread -----

  /** list_uncomplete compares the write position with the pointer handed in. */
  predicate Uncomplete(list: seq<Item>) { list != [] && (list[0].off != 0 || list[0].p.apart) }

  function Rest(it: Item): int { |it.p.data| - it.off }

  /** ctrl_cmd: the next request of the pipe. */
  function TakeCommand(s: State): State {
    if s.pipe == [] then s
    else
      var t := s.(pipe := s.pipe[1..]);
      match s.pipe[0]
      case Data(p) => t.(server := Append(p))
      case EnableWrite => t.(writing := true)
  }

  /** send_socket: to an empty socket everything goes to the high list, and the write event is enabled. */
  function AppendPackage(s: State, p: Package): State {
    var t := s.(wbSize := s.wbSize + |p.data|, server := Release);
    if s.high == [] && s.low == [] then t.(high := [Buffer(p, 0)], writing := true)
    else if p.low then t.(low := s.low + [Buffer(p, 0)])
    else t.(high := s.high + [Buffer(p, 0)])
  }

  /** The rest of a direct write goes before the high list. Then comes the first assertion of send_buffer_. */
  function MergeDirect(s: State): State {
    var t := if s.direct.Some?
             then s.(high := [s.direct.value] + s.high, wbSize := s.wbSize + Rest(s.direct.value), direct := None)
             else s;
    Check(t, !Uncomplete(t.low)).(server := SendHigh)
  }

  /** One write() of send_list_tcp on the high list. */
  function SendFromHigh(s: State, c: Choice): State {
    if s.high == [] then s.(server := if s.low == [] then Finish else SendLow)
    else
      var it := s.high[0];
      var n := Written(c, |it.p.data| - it.off);
      var t := s.(wire := s.wire + it.p.data[it.off..it.off + n], wbSize := s.wbSize - n);
      if it.off + n < |it.p.data| then t.(high := s.high[0 := Buffer(it.p, it.off + n)], server := Unlock)
      else t.(high := s.high[1..], finished := s.finished + [it.p])
  }

  function SendFromLow(s: State, c: Choice): State {
    if s.low == [] then s.(server := Finish)
    else
      var it := s.low[0];
      var n := Written(c, |it.p.data| - it.off);
      var t := s.(wire := s.wire + it.p.data[it.off..it.off + n], wbSize := s.wbSize - n);
      if it.off + n < |it.p.data| then t.(low := s.low[0 := Buffer(it.p, it.off + n)], server := Raise)
      else t.(low := s.low[1..], finished := s.finished + [it.p])
  }

  /** raise_uncomplete, with its assertion. */
  function RaiseHead(s: State): State {
    if Uncomplete(s.low) then
      Check(s, s.high == []).(high := [s.low[0]], low := s.low[1..], server := Unlock)
    else s.(server := Unlock)
  }

  function ServerStep(s: State, c: Choice): State {
    match s.server
    case Poll =>
      if c.Command? then TakeCommand(s)
      else if c.Event? && s.writing && s.lock == Free then s.(lock := BySocket, server := Merge)
      else s
    case Append(p) => AppendPackage(s, p)
    case Release => if s.sending == 0 then Check(s, false) else s.(sending := s.sending - 1, server := Poll)
    case Merge => MergeDirect(s)
    case SendHigh => SendFromHigh(s, c)
    case SendLow => SendFromLow(s, c)
    case Raise => RaiseHead(s)
    case Finish => Check(s, s.high == [] && s.low == [] && s.wbSize == 0).(writing := false, server := Unlock)
    case Unlock => s.(lock := Free, server := Poll)
  }

  // ----- runs -----

  /** A step of a worker, or of the socket thread. */
  datatype Move = OfWorker(i: nat, choice: Choice) | OfServer(choice: Choice)

  function Step(s: State, m: Move): State {
    match m
    case OfWorker(i, c) => if i < |s.workers| then WorkerStep(s, i, c) else s
    case OfServer(c) => ServerStep(s, c)
  }

  function Init(workers: nat): State {
    State([], [], None, 0, 0, false, [], Free, Poll, seq(workers, _ => Ready), [], [], [], true)
  }

  function Run(s: State, moves: seq<Move>): State {
    if moves == [] then s
    else Step(Run(s, moves[..|moves| - 1]), moves[|moves| - 1])
  }
}
