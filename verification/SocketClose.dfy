/**
 The life of one slot of socket_server.c: reserved by any thread, opened, half closed and closed by
 the socket thread, then reserved again for another id, while an event fetched earlier may still be
 waiting for it. Whether data is waiting to be sent and what the operating system answers are inputs
 of each step, so every answer is covered. Functions say what each step does; the class at the end
 does it field by field.
 */
module SocketClose {

  import opened Prelude

  datatype SocketType =
    | Invalid | Reserve | PListen | Listen | Connecting | Connected
    | HalfcloseRead | HalfcloseWrite | PAccept | Bind

  datatype Protocol = Tcp | Udp | Unknown

  datatype Kind = Data | Close | Open | Accept | Err | UdpData | Warning

  /** A message handed to the service that owns socket 'id'. */
  datatype Message = Message(kind: Kind, id: int)

  /** What read() gives: an error, end of file, or data filling the buffer ('full') or not. */
  datatype Reading = ReadError(again: bool) | EndOfFile | Bytes(full: bool)

  /**
   How far send_buffer gets: the lock is taken, write() fails or stops with 'left' bytes unsent, or
   both lists are empty at the end ('fails': the poller refuses to disable writing).
   */
  datatype Sending = Locked | WriteError(left: nat) | Waiting(left: nat) | Drained(fails: bool, warned: bool)

  /** What becomes of an opening request. */
  datatype Opening =
    | NoAddress
    | NotAdded(late: bool)              // new_fd returns NULL, before or after it set the fields
    | OpenedNow | OpenLater | WriteNotEnabled
    | Listening(named: bool)
    | Binding
    | UdpSocket | UdpNotAdded

  /** The flags of an entry of the event array. */
  datatype Flags = Flags(read: bool, write: bool, error: bool, eof: bool)

  datatype Event =
    | ReserveId(id: int)
    | HandleOpening(id: int, how: Opening)
    | AcceptInto(id: int, added: bool, late: bool)  // report_accept of a listening socket in another slot
    | Resume(id: int, fails: bool)
    | Pause(id: int, fails: bool)
    | CloseRequest(id: int, shutdown: bool, idle: bool)
    | SendRequest(id: int, size: nat, empty: bool, fails: bool, warns: bool)
    | TriggerWrite(id: int, fails: bool)
    | Fetch(flags: Flags)               // sp_wait reports this socket
    | Dispatch(input: Reading, sending: Sending, connected: bool, fails: bool, accepted: int, idle: bool)

  /** The fields of a slot; 'unsent' is wb_size, 'pending' its entry in the event array. */
  datatype Slot = Slot(
    id: int, typ: SocketType, protocol: Protocol, closing: bool, reading: bool, writing: bool,
    unsent: nat, pending: Option<Flags>,
    requested: bool                     // an opening request for this slot is in the pipe
  )

  /** What a step leaves, and the message it raises; or an assert() fails. */
  datatype Result = Done(slot: Slot, msg: Option<Message>) | Failed(at: Assertion)

  datatype Assertion = InForceClose | InSendBuffer | InNewFd

  const Empty := Slot(0, Invalid, Unknown, false, false, false, 0, None, false)

  predicate Live(typ: SocketType) {
    typ != Invalid && typ != Reserve
  }

  /** socket_invalid. */
  predicate SocketInvalid(s: Slot, id: int) {
    s.id != id || s.typ == Invalid
  }

  /** nomore_sending_data; 'idle' says that lists, direct buffer and counter are empty. */
  predicate NoMoreSending(s: Slot, idle: bool) {
    idle || s.typ == HalfcloseWrite
  }

  function Say(kind: Kind, s: Slot): Option<Message> {
    Some(Message(kind, s.id))
  }

  function SayIf(b: bool, kind: Kind, s: Slot): Option<Message> {
    if b then Say(kind, s) else None
  }

  /** force_close; the bytes left unsent stay counted until the slot is opened again. */
  function Gone(s: Slot, msg: Option<Message>): Result {
    if s.typ == Reserve then Failed(InForceClose) else Done(s.(typ := Invalid), msg)
  }

  /** close_read. */
  function ReadClosed(s: Slot): Slot {
    s.(typ := HalfcloseRead, reading := false)
  }

  // ---- Commands

  function Reserved(s: Slot, id: int): Slot {
    if s.typ == Invalid then s.(id := id, typ := Reserve, protocol := Unknown, requested := true) else s
  }

  /** new_fd. */
  function Fresh(s: Slot, protocol: Protocol, readable: bool): Slot {
    s.(protocol := protocol, closing := false, reading := readable, writing := false, unsent := 0)
  }

  /** open_socket, listen_socket, bind_socket and add_udp_socket. */
  function OpenedAs(s: Slot, how: Opening): Result {
    var t := s.(requested := false);
    match how
    case NoAddress => Done(t.(typ := Invalid), Say(Err, s))
    case NotAdded(late) => Done((if late then Fresh(t, Tcp, false) else t).(typ := Invalid), Say(Err, s))
    case UdpNotAdded => Done(t.(typ := Invalid), None)
    case OpenedNow => Done(Fresh(t, Tcp, true).(typ := Connected), Say(Open, s))
    case OpenLater => Done(Fresh(t, Tcp, true).(typ := Connecting, writing := true), None)
    case WriteNotEnabled => Done(Fresh(t, Tcp, true).(typ := Invalid, writing := true), Say(Err, s))
    case Listening(named) => Done(Fresh(t, Tcp, false).(typ := PListen), Say(if named then Open else Err, s))
    case Binding => Done(Fresh(t, Tcp, true).(typ := Bind), Say(Open, s))
    case UdpSocket => Done(Fresh(t, Udp, true).(typ := Connected), None)
  }

  /** An opening request meets the assertion of new_fd; other ids have no request in the pipe. */
  function Opened(s: Slot, id: int, how: Opening): Result {
    if !s.requested || s.id != id then Done(s, None)
    else if s.typ != Reserve then Failed(InNewFd)
    else OpenedAs(s, how)
  }

  function AcceptedInto(s: Slot, id: int, added: bool, late: bool): Slot {
    if s.typ != Invalid then s
    else if added then Fresh(s.(id := id), Tcp, false).(typ := PAccept)
    else if late then Fresh(s.(id := id), Tcp, false)
    else s.(id := id, protocol := Unknown)
  }

  function Resumed(s: Slot, id: int, fails: bool): Result {
    if SocketInvalid(s, id) || s.typ == HalfcloseRead then Done(s, Some(Message(Err, id)))
    else
      var t := s.(reading := true);
      if !s.reading && fails then Done(t, Say(Err, s))
      else if s.typ == PAccept then Done(t.(typ := Connected), Say(Open, s))
      else if s.typ == PListen then Done(t.(typ := Listen), Say(Open, s))
      else Done(t, SayIf(s.typ == Connected, Open, s))
  }

  function Paused(s: Slot, id: int, fails: bool): Result {
    if SocketInvalid(s, id) then Done(s, None)
    else Done(s.(reading := false), SayIf(s.reading && fails, Err, s))
  }

  function CloseRequested(s: Slot, id: int, shutdown: bool, idle: bool): Result {
    if SocketInvalid(s, id) then Done(s, None)
    else
      var msg := SayIf(s.typ != HalfcloseRead, Close, s);
      if shutdown || NoMoreSending(s, idle) then Gone(s, msg)
      else if s.typ == HalfcloseRead then Done(s.(closing := true), None)
      else Done(ReadClosed(s.(closing := true)), msg)
  }

  function SendRequested(s: Slot, id: int, size: nat, empty: bool, fails: bool, warns: bool): Result {
    if SocketInvalid(s, id) || s.typ in {Reserve, HalfcloseWrite, PAccept, PListen, Listen}
      || s.closing then Done(s, None)
    else
      var t := s.(unsent := s.unsent + size, writing := s.writing || empty);
      if empty && !s.writing && fails then Done(t, Say(Err, s)) else Done(t, SayIf(warns, Warning, s))
  }

  function Triggered(s: Slot, id: int, fails: bool): Result {
    if SocketInvalid(s, id) then Done(s, None) else Done(s.(writing := true), SayIf(!s.writing && fails, Err, s))
  }

  /** clear_closed_event after a command: the entry of a socket that is gone is dropped. */
  function Cleared(r: Result): Result {
    if r.Done? && r.msg.Some? && r.msg.value.kind in {Close, Err} && r.msg.value.id == r.slot.id
      && r.slot.typ == Invalid
    then r.(slot := r.slot.(pending := None)) else r
  }

  // ---- Events

  /** close_write. */
  function WriteFailed(s: Slot): Result {
    if s.closing || s.typ == HalfcloseRead then Gone(s, None)
    else if s.typ == HalfcloseWrite then Done(s, None)
    else Done(s.(typ := HalfcloseWrite, writing := false), Say(Err, s))
  }

  /** send_buffer. On a reserved slot the lists are empty, and step 4 asserts that nothing is unsent. */
  function Sent(s: Slot, w: Sending): Result {
    match w
    case Locked => Done(s, None)
    case Waiting(left) => Done(s.(unsent := left), None)
    case WriteError(left) => if s.protocol == Tcp then WriteFailed(s.(unsent := left))
      else Done(s.(unsent := left), None)
    case Drained(fails, warned) =>
      if s.typ == Reserve && s.unsent != 0 then Failed(InSendBuffer)
      else if s.closing then Gone(s.(unsent := 0), None)
      else if s.writing && fails then Done(s.(unsent := 0, writing := false), Say(Err, s))
      else Done(s.(unsent := 0, writing := false), SayIf(warned, Warning, s))
  }

  /** forward_message_tcp. */
  function TcpInput(s: Slot, input: Reading, idle: bool): Result {
    match input
    case ReadError(again) => Done(s, SayIf(!again, Err, s))
    case EndOfFile =>
      if s.closing then (if NoMoreSending(s, idle) then Gone(s, None) else Done(s, None))
      else if s.typ == HalfcloseRead then Done(s, None)
      else if s.typ == HalfcloseWrite then Gone(s, Say(Close, s))
      else Done(ReadClosed(s), Say(Close, s))
    case Bytes(_) => Done(s, SayIf(s.typ != HalfcloseRead, Data, s))
  }

  /** forward_message_udp; a reserved slot has no protocol to match. */
  function UdpInput(s: Slot, input: Reading): Result {
    match input
    case ReadError(again) => if again then Done(s, None) else Gone(s, Say(Err, s))
    case EndOfFile => Done(s, SayIf(s.protocol != Unknown, UdpData, s))
    case Bytes(_) => Done(s, SayIf(s.protocol != Unknown, UdpData, s))
  }

  /** report_connect. */
  function ConnectReported(s: Slot, ok: bool, idle: bool, fails: bool): Result {
    if !ok then Done(s.(typ := Invalid), Say(Err, s))
    else if idle && s.writing && fails then Done(s.(typ := Invalid, writing := false), Say(Err, s))
    else Done(s.(typ := Connected, writing := s.writing && !idle), Say(Open, s))
  }

  /** The entry stays, or loses its read flag, when there is more to do for it. */
  function Again(f: Flags, r: Result, input: Reading): Result {
    if r.Failed? then r
    else if r.msg.Some? && ((r.msg.value.kind == Data && input == Bytes(true)) || r.msg.value.kind == UdpData)
    then r.(slot := r.slot.(pending := Some(f)))
    else if f.write && !(r.msg.Some? && r.msg.value.kind in {Close, Err})
    then r.(slot := r.slot.(pending := Some(f.(read := false))))
    else r
  }

  /** The flags of an entry, taken in the order read, write, error, end of file. */
  function Flagged(s: Slot, f: Flags, e: Event): Result
    requires e.Dispatch?
  {
    if f.read then Again(f, if s.protocol == Tcp then TcpInput(s, e.input, e.idle) else UdpInput(s, e.input), e.input)
    else if f.write then Sent(s, e.sending)
    else if f.error then Done(s, Say(Err, s))
    else if f.eof then Gone(s, SayIf(s.typ != HalfcloseRead, Close, s))
    else Done(s, None)
  }

  /** One entry of the event array in socket_server_poll. */
  function Dispatched(s: Slot, e: Event): Result
    requires e.Dispatch?
  {
    if s.pending == None then Done(s, None)
    else
      var f, t := s.pending.value, s.(pending := None);
      if s.typ == Connecting then ConnectReported(t, e.connected, e.idle, e.fails)
      else if s.typ == Listen then
        Done(t, if e.accepted > 0 then Say(Accept, s) else SayIf(e.accepted < 0, Err, s))
      else if s.typ == Invalid then Done(t, None)
      else Flagged(t, f, e)
  }

  /** A command from the pipe. */
  function Command(s: Slot, e: Event): Result {
    match e
    case HandleOpening(id, how) => Opened(s, id, how)
    case Resume(id, fails) => Resumed(s, id, fails)
    case Pause(id, fails) => Paused(s, id, fails)
    case CloseRequest(id, shutdown, idle) => CloseRequested(s, id, shutdown, idle)
    case SendRequest(id, size, empty, fails, warns) => SendRequested(s, id, size, empty, fails, warns)
    case TriggerWrite(id, fails) => Triggered(s, id, fails)
    case _ => Done(s, None)
  }

  /** sp_wait reports only sockets that are registered, in entries that are free. */
  function Fetched(s: Slot, flags: Flags): Slot {
    if Live(s.typ) && s.pending == None then s.(pending := Some(flags)) else s
  }

  /** One step. */
  function Handle(s: Slot, e: Event): Result {
    match e
    case ReserveId(id) => Done(Reserved(s, id), None)
    case AcceptInto(id, added, late) => Done(AcceptedInto(s, id, added, late), None)
    case Fetch(flags) => Done(Fetched(s, flags), None)
    case Dispatch(_, _, _, _, _, _) => Dispatched(s, e)
    case _ => Cleared(Command(s, e))
  }

  /**
   When an assertion fails: an entry fetched for an earlier socket meets a reserved slot and would
   close it or finds bytes unsent; a request closes a reserved slot; or an opening request finds its
   slot no longer reserved.
   */
  predicate Fails(s: Slot, e: Event) {
    || (e.Dispatch? && Stray(s, e))
    || (e.CloseRequest? && s.typ == Reserve && s.id == e.id && (e.shutdown || e.idle))
    || (e.HandleOpening? && s.requested && s.id == e.id && s.typ != Reserve)
  }

  predicate Stray(s: Slot, e: Event)
    requires e.Dispatch?
  {
    s.typ == Reserve && s.pending.Some? &&
    var f := s.pending.value;
    if f.read then e.input == ReadError(false)
    else if f.write then e.sending.Drained? && (s.unsent != 0 || s.closing)
    else !f.error && f.eof
  }

  lemma FailsExactly(s: Slot, e: Event)
    requires s.typ == Reserve ==> s.protocol == Unknown
    ensures Handle(s, e).Failed? <==> Fails(s, e)
  {
    hide Fresh, Reserved, AcceptedInto;
    match e
    case Dispatch(_, _, _, _, _, _) => StrayExactly(s, e);
    case _ =>
  }

  lemma StrayExactly(s: Slot, e: Event)
    requires e.Dispatch? && (s.typ == Reserve ==> s.protocol == Unknown)
    ensures Dispatched(s, e).Failed? <==> Stray(s, e)
  {
  }

  // ---- Whole runs

  /** After SOCKET_CLOSE of an id neither SOCKET_CLOSE nor SOCKET_DATA of that id follows. */
  ghost predicate Quiet(log: seq<Message>) {
    forall i, j :: 0 <= i < j < |log| && log[i].kind == Close && log[j].id == log[i].id ==>
      log[j].kind != Close && log[j].kind != Data
  }

  predicate Closed(log: seq<Message>, id: int) {
    Message(Close, id) in log
  }

  function Raised(m: Option<Message>): seq<Message> {
    if m.Some? then [m.value] else []
  }

  /**
   A run: the slot, the messages raised, the number of events handled and whether an assertion then
   failed; and the ids the slot has had, those of UDP sockets, and the TCP ids a service was told of.
   */
  datatype Trace = Trace(
    slot: Slot, log: seq<Message>, handled: nat, failed: bool,
    used: set<int>, udp: set<int>, announced: set<int>
  )

  function TakenId(s: Slot, e: Event): set<int> {
    if (e.ReserveId? || e.AcceptInto?) && s.typ == Invalid then {e.id} else {}
  }

  /** The TCP id that a service hears of in this step. */
  function Told(s: Slot, m: Option<Message>): set<int> {
    if s.protocol == Tcp && (m == Some(Message(Open, s.id)) || s.typ == PAccept) then {s.id} else {}
  }

  function Advance(t: Trace, e: Event, s: Slot, m: Option<Message>): Trace {
    Trace(s, t.log + Raised(m), t.handled + 1, false, t.used + TakenId(t.slot, e),
          t.udp + (if Live(s.typ) && s.protocol == Udp then {s.id} else {}), t.announced + Told(s, m))
  }

  /** The run handles event after event until an assertion fails. */
  function Play(run: seq<Event>): Trace {
    if run == [] then Trace(Empty, [], 0, false, {}, {}, {})
    else
      var t := Play(run[..|run| - 1]);
      if t.failed then t else After(t, run[|run| - 1])
  }

  /** One more event. */
  function After(t: Trace, e: Event): Trace {
    match Handle(t.slot, e)
    case Failed(_) => t.(failed := true)
    case Done(s, m) => Advance(t, e, s, m)
  }

  /** Ids are never given out twice. */
  ghost predicate FreshIds(run: seq<Event>) {
    forall i, j :: 0 <= i < j < |run| && (run[i].ReserveId? || run[i].AcceptInto?)
      && (run[j].ReserveId? || run[j].AcceptInto?)
      ==> run[i].id != run[j].id
  }

  /** The opening request of run[i] is handled before position j: the pipe is first in, first out. */
  ghost predicate Opens(run: seq<Event>, i: nat, j: nat)
    requires i < j <= |run| && run[i].ReserveId?
  {
    exists k :: i < k < j && run[k].HandleOpening? && run[k].id == run[i].id
  }

  /** A close request comes after the opening request of its id: callers learn the id no earlier. */
  ghost predicate InOrder(run: seq<Event>) {
    forall i, j :: 0 <= i < j < |run| && run[i].ReserveId? && run[j].CloseRequest? && run[j].id == run[i].id
      ==> Opens(run, i, j)
  }

  // ---- The invariant

  /** 'closing' and HALFCLOSE_READ both mean that SOCKET_CLOSE has been raised. */
  ghost predicate StateOk(s: Slot, log: seq<Message>, udp: set<int>) {
    && (s.typ == HalfcloseRead ==> Closed(log, s.id))
    && (Closed(log, s.id) ==> s.typ == HalfcloseRead || s.typ == Invalid)
    && (s.closing && Live(s.typ) ==> s.typ == HalfcloseRead)
    && (s.typ == Reserve <==> s.requested)
    && (s.typ == Reserve ==> s.protocol == Unknown)
    && (Live(s.typ) ==> s.protocol != Unknown && (s.protocol == Udp <==> s.id in udp))
  }

  ghost predicate HistoryOk(t: Trace) {
    && Quiet(t.log)
    && t.announced <= t.used && t.udp <= t.used && t.announced !! t.udp
    && (t.slot.typ != Invalid ==> t.slot.id in t.used)
    && (t.slot.typ == Reserve ==> t.slot.id !in t.udp)
    && (t.slot.typ == Reserve || t.slot.typ == Connecting ==> t.slot.id !in t.announced)
    && (forall m :: m in t.log && m.kind in {Close, Data, Open} ==> m.id in t.used)
    && (forall m :: m in t.log && m.kind == Open ==> m.id in t.announced || m.id in t.udp)
    && (forall x :: x in t.announced ==> Closed(t.log, x) || (x == t.slot.id && Live(t.slot.typ)))
  }

  ghost predicate Inv(t: Trace) {
    StateOk(t.slot, t.log, t.udp) && HistoryOk(t)
  }

  lemma QuietAfter(log: seq<Message>, m: Message)
    requires Quiet(log)
    requires m.kind in {Close, Data} ==> !Closed(log, m.id)
    ensures Quiet(log + [m])
  {
    forall i, j | 0 <= i < j < |log + [m]| && (log + [m])[i].kind == Close && (log + [m])[j].id == (log + [m])[i].id
      ensures (log + [m])[j].kind != Close && (log + [m])[j].kind != Data
    {
      assert (log + [m])[i] == log[i];
      if j == |log| {
        assert log[i] == Message(Close, m.id);
      } else {
        assert (log + [m])[j] == log[j];
      }
    }
  }

  /** What a step that keeps the id may do. */
  ghost predicate Moves(a: Slot, b: Slot, m: Option<Message>) {
    && b.id == a.id && (Live(b.typ) ==> Live(a.typ) || a.typ == Reserve)
    && (b.typ == Reserve <==> b.requested) && (b.typ == Reserve ==> a.typ == Reserve)
    && (Live(a.typ) ==> b.protocol == a.protocol)
    && (b.typ == Reserve ==> b.protocol == Unknown) && (Live(b.typ) ==> b.protocol != Unknown)
    && (b.closing && Live(b.typ) ==> b.typ == HalfcloseRead)
    && (a.typ == HalfcloseRead ==> b.typ == HalfcloseRead || b.typ == Invalid)
    && (b.typ == HalfcloseRead ==> a.typ == HalfcloseRead || m == Some(Message(Close, a.id)))
    && (b.typ == Connecting ==> a.typ == Connecting || a.typ == Reserve)
    && (b.typ == PAccept ==> a.typ == PAccept)
    && (m.Some? && m.value.kind != Err ==> m.value.id == a.id)
    && (m.Some? && m.value.kind in {Close, Data} ==> Live(a.typ) && a.typ != HalfcloseRead)
    && (m.Some? && m.value.kind == Close ==> b.typ == HalfcloseRead || b.typ == Invalid)
    && (m.Some? && m.value.kind == Open ==> Live(b.typ) && b.typ != Connecting && b.typ != HalfcloseRead)
    && (Live(a.typ) && a.typ != Connecting && a.typ != HalfcloseRead && b.typ == Invalid && a.protocol == Tcp
        ==> m == Some(Message(Close, a.id)))
  }

  /** What the functions need to know of the slot. */
  ghost predicate Sound(s: Slot) {
    && (s.closing && Live(s.typ) ==> s.typ == HalfcloseRead)
    && (s.typ == Reserve <==> s.requested) && (s.typ == Reserve ==> s.protocol == Unknown)
    && (Live(s.typ) ==> s.protocol != Unknown)
  }

  predicate Premature(s: Slot, e: Event) {
    e.CloseRequest? && s.typ == Reserve && s.id == e.id
  }

  /** The same for a result. */
  ghost predicate MovesTo(s: Slot, r: Result) {
    r.Done? ==> Moves(s, r.slot, r.msg)
  }

  lemma MovesOk(s: Slot, e: Event)
    requires Sound(s) && !e.ReserveId? && !e.AcceptInto? && !Premature(s, e)
    ensures MovesTo(s, Handle(s, e))
  {
    hide MovesTo, Command, Dispatched, Cleared, Fetched;
    match e
    case Fetch(flags) => MovesFetch(s, flags);
    case Dispatch(_, _, _, _, _, _) => MovesDispatch(s, e);
    case _ =>
      MovesCommand(s, e);
      MovesCleared(s, Command(s, e));
  }

  lemma MovesFetch(s: Slot, flags: Flags)
    requires Sound(s)
    ensures MovesTo(s, Done(Fetched(s, flags), None))
  {
  }

  lemma MovesCleared(s: Slot, r: Result)
    requires MovesTo(s, r)
    ensures MovesTo(s, Cleared(r))
  {
  }

  lemma MovesCommand(s: Slot, e: Event)
    requires Sound(s) && !e.ReserveId? && !e.AcceptInto? && !e.Fetch? && !e.Dispatch? && !Premature(s, e)
    ensures MovesTo(s, Command(s, e))
  {
    hide Moves, Opened, CloseRequested, Resumed;
    if e.HandleOpening? {
      MovesOpening(s, e.id, e.how);
    } else if e.CloseRequest? {
      MovesClose(s, e.id, e.shutdown, e.idle);
    } else if e.Resume? {
      MovesResume(s, e.id, e.fails);
    } else {
      MovesNowhere(s, Command(s, e).slot, Command(s, e).msg);
    }
  }

  /** Only switches and counters change. */
  lemma MovesNowhere(s: Slot, t: Slot, m: Option<Message>)
    requires Sound(s) && t == s.(reading := t.reading, writing := t.writing, unsent := t.unsent, pending := t.pending)
    requires m.Some? ==> m.value.id == s.id && m.value.kind in {Err, Warning, UdpData, Accept}
    ensures Moves(s, t, m)
  {
  }

  lemma MovesOpening(s: Slot, id: int, how: Opening)
    requires Sound(s)
    ensures MovesTo(s, Opened(s, id, how))
  {
  }

  lemma MovesClose(s: Slot, id: int, shutdown: bool, idle: bool)
    requires Sound(s) && !(s.typ == Reserve && s.id == id)
    ensures MovesTo(s, CloseRequested(s, id, shutdown, idle))
  {
  }

  lemma MovesResume(s: Slot, id: int, fails: bool)
    requires Sound(s)
    ensures MovesTo(s, Resumed(s, id, fails))
  {
  }

  lemma MovesDispatch(s: Slot, e: Event)
    requires Sound(s) && e.Dispatch?
    ensures MovesTo(s, Dispatched(s, e))
  {
    hide Moves, Flagged, ConnectReported;
    if s.pending.Some? {
      var f, t := s.pending.value, s.(pending := None);
      if s.typ == Connecting {
        MovesConnect(t, e.connected, e.idle, e.fails);
      } else if s.typ == Listen || s.typ == Invalid {
        MovesNowhere(s, t, Dispatched(s, e).msg);
      } else {
        MovesFlagged(t, f, e);
      }
      MovesFrom(s, t, Dispatched(s, e));
    } else {
      MovesNowhere(s, s, None);
    }
  }

  lemma MovesFlagged(s: Slot, f: Flags, e: Event)
    requires Sound(s) && e.Dispatch? && s.typ != Invalid && s.typ != Connecting
    ensures MovesTo(s, Flagged(s, f, e))
  {
    hide Moves, Sent, TcpInput, UdpInput, Again;
    if f.read {
      MovesInput(s, e.input, e.idle);
      MovesAgain(s, f, if s.protocol == Tcp then TcpInput(s, e.input, e.idle) else UdpInput(s, e.input), e.input);
    } else if f.write {
      MovesSent(s, e.sending);
    } else if f.error {
      MovesNowhere(s, s, Say(Err, s));
    } else {
      MovesEof(s, f.eof);
    }
  }

  lemma MovesFrom(s: Slot, t: Slot, r: Result)
    requires t == s.(pending := None)
    ensures MovesTo(t, r) ==> MovesTo(s, r)
  {
  }

  lemma MovesConnect(s: Slot, ok: bool, idle: bool, fails: bool)
    requires Sound(s) && s.typ == Connecting
    ensures MovesTo(s, ConnectReported(s, ok, idle, fails))
  {
  }

  lemma MovesEof(s: Slot, eof: bool)
    requires Sound(s) && s.typ != Invalid && s.typ != Connecting
    ensures MovesTo(s, if eof then Gone(s, SayIf(s.typ != HalfcloseRead, Close, s)) else Done(s, None))
  {
  }

  lemma MovesSent(s: Slot, w: Sending)
    requires Sound(s) && s.typ != Invalid && s.typ != Connecting
    ensures MovesTo(s, Sent(s, w))
  {
  }

  lemma MovesInput(s: Slot, input: Reading, idle: bool)
    requires Sound(s) && s.typ != Invalid && s.typ != Connecting
    ensures MovesTo(s, if s.protocol == Tcp then TcpInput(s, input, idle) else UdpInput(s, input))
  {
  }

  lemma MovesAgain(s: Slot, f: Flags, r: Result, input: Reading)
    requires MovesTo(s, r)
    ensures MovesTo(s, Again(f, r, input))
  {
  }

  // ---- Every step keeps the invariant

  lemma AdvanceOk(t: Trace, e: Event, b: Slot, m: Option<Message>)
    requires Inv(t) && Moves(t.slot, b, m) && TakenId(t.slot, e) == {}
    ensures Inv(Advance(t, e, b, m))
  {
    var n := Advance(t, e, b, m);
    if m.Some? {
      QuietAfter(t.log, m.value);
    }
    assert n.log == t.log + Raised(m);
    assert forall x :: Closed(n.log, x) <==> Closed(t.log, x) || m == Some(Message(Close, x));
  }

  lemma TakeOk(t: Trace, e: Event)
    requires Inv(t) && (e.ReserveId? || e.AcceptInto?) && e.id !in t.used
    ensures Inv(Advance(t, e, Handle(t.slot, e).slot, None))
  {
    assert t.log + [] == t.log;
  }

  /** Every id in use was given out earlier in the run; a reserved slot still waits for its opening. */
  ghost predicate FromRun(t: Trace, run: seq<Event>) {
    && (forall x :: x in t.used ==>
          exists k :: 0 <= k < |run| && (run[k].ReserveId? || run[k].AcceptInto?) && run[k].id == x)
    && (t.slot.typ == Reserve ==> exists k :: 0 <= k < |run| && run[k] == ReserveId(t.slot.id) && !Opens(run, k, |run|))
    && (forall x :: x in t.udp ==> HandleOpening(x, UdpSocket) in run)
  }

  lemma SoundIn(t: Trace)
    requires Inv(t)
    ensures Sound(t.slot)
  {
  }

  /** No close request comes too early, and every id is new. */
  lemma NextEvent(t: Trace, run: seq<Event>)
    requires run != [] && FreshIds(run) && InOrder(run) && FromRun(t, run[..|run| - 1])
    ensures var e := run[|run| - 1];
            && !Premature(t.slot, e) && (e.ReserveId? || e.AcceptInto? ==> e.id !in t.used)
  {
    var front := run[..|run| - 1];
    assert forall k :: 0 <= k < |front| ==> front[k] == run[k];
  }

  /** The event at k is the one at which an assertion fails. */
  ghost predicate Stops(run: seq<Event>, k: nat)
    requires k < |run|
  {
    !Play(run[..k]).failed && Handle(Play(run[..k]).slot, run[k]).Failed?
  }

  lemma StartOk()
    ensures Inv(Play([])) && FromRun(Play([]), [])
  {
  }

  /** One more event. */
  lemma StepOk(t: Trace, run: seq<Event>, e: Event)
    requires Inv(t) && FromRun(t, run) && !Premature(t.slot, e) && (e.ReserveId? || e.AcceptInto? ==> e.id !in t.used)
    ensures var r := Handle(t.slot, e);
            r.Done? ==> Inv(Advance(t, e, r.slot, r.msg)) && FromRun(Advance(t, e, r.slot, r.msg), run + [e])
  {
    hide Inv, FromRun, Moves, Advance, Handle;
    var r := Handle(t.slot, e);
    SoundIn(t);
    FailsExactly(t.slot, e);
    if r.Done? {
      if e.ReserveId? || e.AcceptInto? {
        TakeOk(t, e);
        TakesNothingBack(t.slot, e);
      } else {
        MovesOk(t.slot, e);
        AdvanceOk(t, e, r.slot, r.msg);
      }
      FromRunStep(t, run, e);
    }
  }

  lemma TakesNothingBack(s: Slot, e: Event)
    requires e.ReserveId? || e.AcceptInto?
    ensures Handle(s, e).Done? && Handle(s, e).msg == None
  {
  }

  /** A reserved slot was reserved by this event or is as it was; UDP sockets come from UDP requests. */
  lemma Origins(s: Slot, e: Event)
    requires Sound(s) && !Premature(s, e)
    ensures var r := Handle(s, e);
            r.Done? ==>
              && (r.slot.typ == Reserve ==>
                    if s.typ == Reserve then r.slot.id == s.id
                      && !(e.HandleOpening? && e.id == s.id) else e == ReserveId(r.slot.id))
              && (Live(r.slot.typ) && r.slot.protocol == Udp ==>
                    (Live(s.typ) && s.protocol == Udp && r.slot.id == s.id) || e == HandleOpening(r.slot.id, UdpSocket))
  {
    hide Moves, Handle;
    if e.ReserveId? || e.AcceptInto? || e.HandleOpening? {
      OriginsNew(s, e);
    } else {
      MovesOk(s, e);
      UseMoves(s, Handle(s, e));
      NotOpened(s, e);
    }
  }

  lemma UseMoves(s: Slot, r: Result)
    requires MovesTo(s, r)
    ensures r.Done? ==> r.slot.id == s.id && (r.slot.typ == Reserve ==> s.typ == Reserve)
    ensures r.Done? && Live(s.typ) ==> r.slot.protocol == s.protocol
    ensures r.Done? && Live(r.slot.typ) ==> Live(s.typ) || s.typ == Reserve
  {
  }

  lemma NotOpened(s: Slot, e: Event)
    requires Sound(s) && !Premature(s, e) && !e.ReserveId? && !e.AcceptInto? && !e.HandleOpening?
    ensures Handle(s, e).Done? && s.typ == Reserve ==> Handle(s, e).slot.typ == Reserve
  {
  }

  lemma OriginsNew(s: Slot, e: Event)
    requires Sound(s) && (e.ReserveId? || e.AcceptInto? || e.HandleOpening?)
    ensures var r := Handle(s, e);
            r.Done? ==>
              && (r.slot.typ == Reserve ==>
                    if s.typ == Reserve then r.slot.id == s.id
                      && !(e.HandleOpening? && e.id == s.id) else e == ReserveId(r.slot.id))
              && (Live(r.slot.typ) && r.slot.protocol == Udp ==>
                    (Live(s.typ) && s.protocol == Udp && r.slot.id == s.id) || e == HandleOpening(r.slot.id, UdpSocket))
  {
  }

  lemma FromRunStep(t: Trace, run: seq<Event>, e: Event)
    requires Inv(t) && FromRun(t, run) && Handle(t.slot, e).Done? && !Premature(t.slot, e)
    ensures FromRun(Advance(t, e, Handle(t.slot, e).slot, Handle(t.slot, e).msg), run + [e])
  {
    hide Handle, HistoryOk, Quiet, Closed;
    var s2 := Handle(t.slot, e).slot;
    var all := run + [e];
    SoundIn(t);
    Origins(t.slot, e);
    forall x | x in t.used + TakenId(t.slot, e)
      ensures exists k :: 0 <= k < |all| && (all[k].ReserveId? || all[k].AcceptInto?) && all[k].id == x
    {
      if x in t.used {
        var k :| 0 <= k < |run| && (run[k].ReserveId? || run[k].AcceptInto?) && run[k].id == x;
        assert all[k] == run[k];
      } else {
        assert all[|run|] == e;
      }
    }
    if s2.typ == Reserve {
      StillWaits(t.slot, s2, run, e);
    }
    assert all[|run|] == e;
  }

  lemma StillWaits(s: Slot, s2: Slot, run: seq<Event>, e: Event)
    requires if s.typ == Reserve then s2.id == s.id && !(e.HandleOpening? && e.id == s.id) else e == ReserveId(s2.id)
    requires s.typ == Reserve ==> exists k :: 0 <= k < |run| && run[k] == ReserveId(s.id) && !Opens(run, k, |run|)
    ensures var all := run + [e]; exists k :: 0 <= k < |all| && all[k] == ReserveId(s2.id) && !Opens(all, k, |all|)
  {
    var all := run + [e];
    if s.typ == Reserve {
      var k :| 0 <= k < |run| && run[k] == ReserveId(s.id) && !Opens(run, k, |run|);
      assert all[k] == run[k];
      forall j | k < j < |all| ensures !(all[j].HandleOpening? && all[j].id == s.id) {
        assert j < |run| ==> all[j] == run[j];
      }
      assert !Opens(all, k, |all|);
    } else {
      assert all[|run|] == e;
    }
  }

  lemma FailOk(t: Trace, run: seq<Event>)
    requires Inv(t) && FromRun(t, run)
    ensures Inv(t.(failed := true)) && FromRun(t.(failed := true), run)
  {
  }

  /** The invariant holds after every run. */
  lemma {:induction false} PlayOk(run: seq<Event>)
    requires FreshIds(run) && InOrder(run)
    ensures Play(run).handled <= |run|
    ensures Inv(Play(run)) && FromRun(Play(run), run[..Play(run).handled])
    ensures Play(run).slot == Play(run[..Play(run).handled]).slot
    ensures Play(run).failed <==> Play(run).handled < |run|
    ensures Play(run).failed ==> Stops(run, Play(run).handled)
  {
    hide Handle, Inv, FromRun, FreshIds, InOrder, Advance, After;
    if run == [] {
      StartOk();
    } else {
      var front, e := run[..|run| - 1], run[|run| - 1];
      PartOk(run, |run| - 1);
      PlayOk(front);
      var t := Play(front);
      if t.failed {
        assert front[..t.handled] == run[..t.handled] && front[t.handled] == run[t.handled];
      } else {
        assert front[..t.handled] == front;
        NextEvent(t, run);
        StepOk(t, front, e);
        FailOk(t, front);
        AfterCases(t, e);
        assert run == front + [e] && run[..|run|] == run;
      }
    }
  }

  lemma AfterCases(t: Trace, e: Event)
    ensures var r := Handle(t.slot, e);
            && (r.Done? ==> After(t, e) == Advance(t, e, r.slot, r.msg))
            && (r.Done? ==> After(t, e).handled == t.handled + 1 && !After(t, e).failed && After(t, e).slot == r.slot)
            && (r.Failed? ==> After(t, e) == t.(failed := true))
  {
    hide Handle;
  }

  lemma PlayLast(run: seq<Event>, e: Event)
    ensures Play(run + [e]) == if Play(run).failed then Play(run) else After(Play(run), e)
  {
    hide After;
    assert (run + [e])[..|run|] == run;
  }

  /**
   Every run of one slot: after SOCKET_CLOSE of an id there is neither another one nor any SOCKET_DATA
   for it; every TCP id that a service was told of has had its SOCKET_CLOSE unless it is the slot's
   present id and still alive; HALFCLOSE_READ and 'closing' mean that it has been raised. The run
   stops early exactly at an entry fetched for an earlier socket that meets a reserved slot.
   */
  lemma CloseOnce(run: seq<Event>)
    requires FreshIds(run) && InOrder(run)
    ensures var t := Play(run); var s := t.slot;
            && Quiet(t.log)
            && (forall x :: Message(Open, x) in t.log && HandleOpening(x, UdpSocket) !in run ==> x in t.announced)
            && (forall x :: x in t.announced ==> Closed(t.log, x) || (x == s.id && Live(s.typ)))
            && (Live(s.typ) && (s.typ == HalfcloseRead || s.closing) ==> Closed(t.log, s.id) && s.typ == HalfcloseRead)
            && t.handled <= |run|
            && (t.failed <==> t.handled < |run|)
            && (t.failed ==> run[t.handled].Dispatch? && Stray(s, run[t.handled]))
  {
    PlayOk(run);
    var t := Play(run);
    if t.failed {
      StopsStray(run, t.handled);
    }
    assert forall x :: HandleOpening(x, UdpSocket) in run[..t.handled] ==> HandleOpening(x, UdpSocket) in run;
  }

  lemma StopsStray(run: seq<Event>, k: nat)
    requires FreshIds(run) && InOrder(run) && k < |run| && Stops(run, k)
    ensures run[k].Dispatch? && Stray(Play(run[..k]).slot, run[k])
  {
    hide Handle, Inv, FromRun;
    PartOk(run, k);
    PlayOk(run[..k]);
    var t := Play(run[..k]);
    SoundIn(t);
    FailsExactly(t.slot, run[k]);
    PartOk(run, k + 1);
    assert run[..k + 1][..k] == run[..k] && run[..k][..k] == run[..k];
    NextEvent(t, run[..k + 1]);
  }

  lemma PartOk(run: seq<Event>, k: nat)
    requires FreshIds(run) && InOrder(run) && k <= |run|
    ensures FreshIds(run[..k]) && InOrder(run[..k])
  {
    var part := run[..k];
    forall i, j | 0 <= i < j < |part| && part[i].ReserveId? && part[j].CloseRequest? && part[j].id == part[i].id
      ensures Opens(part, i, j)
    {
      assert Opens(run, i, j);
      var h :| i < h < j && run[h].HandleOpening? && run[h].id == run[i].id;
      assert part[h] == run[h];
    }
  }

  // ---- Which steps raise which message

  /** An entry fetched for a live socket that is past connecting and not listening. */
  predicate Established(s: Slot) {
    Live(s.typ) && s.typ != Connecting && s.typ != Listen
  }

  predicate ReadEntry(s: Slot, e: Event) {
    e.Dispatch? && s.pending.Some? && s.pending.value.read && Established(s)
  }

  predicate WriteEntry(s: Slot, e: Event) {
    e.Dispatch? && s.pending.Some? && !s.pending.value.read && s.pending.value.write && Established(s)
  }

  predicate OtherEntry(s: Slot, e: Event) {
    e.Dispatch? && s.pending.Some? && !s.pending.value.read && !s.pending.value.write && Established(s)
  }

  /** Data that arrives before the end of file. */
  predicate GivesData(s: Slot, e: Event) {
    ReadEntry(s, e) && s.protocol == Tcp && s.typ != HalfcloseRead && e.input.Bytes?
  }

  /** The first end of file, an entry that only reports it, or a close request; once per socket. */
  predicate GivesClose(s: Slot, e: Event) {
    && Live(s.typ) && s.typ != HalfcloseRead
    && (|| (ReadEntry(s, e) && s.protocol == Tcp && e.input == EndOfFile)
        || (OtherEntry(s, e) && !s.pending.value.error && s.pending.value.eof)
        || (e.CloseRequest? && e.id == s.id))
  }

  /** A completed connect, an opening that is complete at once, or a resume. */
  predicate GivesOpen(s: Slot, e: Event) {
    || (e.Dispatch? && s.pending.Some? && s.typ == Connecting && e.connected && !(e.idle && s.writing && e.fails))
    || (e.HandleOpening? && s.typ == Reserve && e.id == s.id && e.how in {OpenedNow, Listening(true), Binding})
    || (e.Resume? && e.id == s.id && s.typ in {PAccept, PListen, Connected} && (s.reading || !e.fails))
  }

  /** A connection was accepted by a listening socket. */
  predicate GivesAccept(s: Slot, e: Event) {
    e.Dispatch? && s.pending.Some? && s.typ == Listen && e.accepted > 0
  }

  predicate GivesUdp(s: Slot, e: Event) {
    ReadEntry(s, e) && s.protocol == Udp && !e.input.ReadError?
  }

  /** The poller refuses, the system reports an error, or a resume comes too late. */
  predicate GivesErr(id: int, s: Slot, e: Event) {
    match e
    case Resume(who, fails) =>
      if SocketInvalid(s, who) || s.typ == HalfcloseRead then id == who else id == s.id && fails && !s.reading
    case Pause(who, fails) => id == s.id == who && s.typ != Invalid && fails && s.reading
    case SendRequest(who, _, empty, fails, _) =>
      && id == s.id == who && s.typ in {Connecting, Connected, HalfcloseRead, Bind} && !s.closing
      && empty && fails && !s.writing
    case TriggerWrite(who, fails) => id == s.id == who && s.typ != Invalid && fails && !s.writing
    case HandleOpening(who, how) =>
      id == s.id == who && s.typ == Reserve &&
      (how.NoAddress? || how.NotAdded? || how.WriteNotEnabled? || how == Listening(false))
    case Dispatch(input, sending, connected, fails, accepted, idle) =>
      && id == s.id && s.pending.Some?
      && var f := s.pending.value;
         if s.typ == Connecting then !connected || (idle && s.writing && fails)
         else if s.typ == Listen then accepted < 0
         else if s.typ == Invalid then false
         else if f.read then input == ReadError(false) && s.typ != Reserve
         else if f.write then
           if sending.WriteError? then s.protocol == Tcp && s.typ !in {HalfcloseRead, HalfcloseWrite} && !s.closing
           else sending.Drained? && !(s.typ == Reserve && s.unsent != 0) && !s.closing && s.writing && sending.fails
         else f.error
    case _ => false
  }

  /** The step raises this message; all but errors are for the slot's present id. */
  predicate Gives(kind: Kind, id: int, s: Slot, e: Event)
    requires kind != Warning
  {
    match kind
    case Data => id == s.id && GivesData(s, e)
    case Close => id == s.id && GivesClose(s, e)
    case Open => id == s.id && GivesOpen(s, e)
    case Accept => id == s.id && GivesAccept(s, e)
    case UdpData => id == s.id && GivesUdp(s, e)
    case Err => GivesErr(id, s, e)
  }

  /** All messages but warnings are raised by exactly these steps. */
  lemma GivesExactly(kind: Kind, id: int, s: Slot, e: Event)
    requires Sound(s) && !Premature(s, e) && kind != Warning
    ensures var r := Handle(s, e); r.Done? && r.msg == Some(Message(kind, id)) <==> Gives(kind, id, s, e)
  {
    hide Cleared;
    match e
    case Dispatch(_, _, _, _, _, _) => EntryGives(kind, id, s, e);
    case HandleOpening(_, _) => OpeningGives(kind, id, s, e);
    case CloseRequest(_, _, _) => CloseGives(kind, id, s, e);
    case Resume(_, _) => ResumeGives(kind, id, s, e);
    case _ => OtherGives(kind, id, s, e);
  }

  /** Dropping an entry does not change what was raised. */
  lemma ClearedSays(r: Result)
    ensures Cleared(r).Done? <==> r.Done?
    ensures r.Done? ==> Cleared(r).msg == r.msg
  {
  }

  lemma OpeningGives(kind: Kind, id: int, s: Slot, e: Event)
    requires Sound(s) && e.HandleOpening? && kind != Warning
    ensures var r := Handle(s, e); r.Done? && r.msg == Some(Message(kind, id)) <==> Gives(kind, id, s, e)
  {
    hide Cleared, Fresh;
    ClearedSays(Command(s, e));
  }

  lemma CloseGives(kind: Kind, id: int, s: Slot, e: Event)
    requires Sound(s) && !Premature(s, e) && e.CloseRequest? && kind != Warning
    ensures var r := Handle(s, e); r.Done? && r.msg == Some(Message(kind, id)) <==> Gives(kind, id, s, e)
  {
    hide Cleared;
    ClearedSays(Command(s, e));
  }

  lemma ResumeGives(kind: Kind, id: int, s: Slot, e: Event)
    requires Sound(s) && e.Resume? && kind != Warning
    ensures var r := Handle(s, e); r.Done? && r.msg == Some(Message(kind, id)) <==> Gives(kind, id, s, e)
  {
    hide Cleared;
    ClearedSays(Command(s, e));
  }

  lemma OtherGives(kind: Kind, id: int, s: Slot, e: Event)
    requires Sound(s) && !e.Dispatch? && !e.HandleOpening? && !e.CloseRequest? && !e.Resume?
    requires kind != Warning
    ensures var r := Handle(s, e); r.Done? && r.msg == Some(Message(kind, id)) <==> Gives(kind, id, s, e)
  {
    hide Cleared;
    ClearedSays(Command(s, e));
  }

  lemma EntryGives(kind: Kind, id: int, s: Slot, e: Event)
    requires Sound(s) && e.Dispatch? && kind != Warning
    ensures var r := Handle(s, e); r.Done? && r.msg == Some(Message(kind, id)) <==> Gives(kind, id, s, e)
  {
    if s.pending.Some? && s.typ !in {Connecting, Listen, Invalid} {
      FlaggedGives(kind, id, s, s.pending.value, e);
      hide Flagged;
    }
  }

  lemma FlaggedGives(kind: Kind, id: int, s: Slot, f: Flags, e: Event)
    requires Sound(s) && e.Dispatch? && kind != Warning
    requires s.pending == Some(f) && s.typ !in {Connecting, Listen, Invalid}
    ensures var r := Flagged(s.(pending := None), f, e);
            r.Done? && r.msg == Some(Message(kind, id)) <==> Gives(kind, id, s, e)
  {
  }

  /** How many steps of the run raise this message. */
  ghost function Occasions(run: seq<Event>, kind: Kind, id: int): nat
    requires kind != Warning
  {
    if run == [] then 0
    else
      var front, e := run[..|run| - 1], run[|run| - 1]; var t := Play(front);
      Occasions(front, kind, id) + if !t.failed && Gives(kind, id, t.slot, e) then 1 else 0
  }

  /** The log holds a message as often as there are steps that raise it, and no more. */
  lemma {:induction false} RaisedAsOften(run: seq<Event>, kind: Kind, id: int)
    requires FreshIds(run) && InOrder(run) && kind != Warning
    ensures multiset(Play(run).log)[Message(kind, id)] == Occasions(run, kind, id)
  {
    hide Handle, Gives, Advance, Inv, FromRun, FreshIds, InOrder, Sound, Premature, After;
    if run == [] {
      PlayNone();
    } else {
      var front, e := run[..|run| - 1], run[|run| - 1];
      var t := Play(front);
      PartOk(run, |run| - 1);
      RaisedAsOften(front, kind, id);
      assert run == front + [e];
      PlayLast(front, e);
      if !t.failed {
        PlayOk(front);
        assert front[..t.handled] == front;
        NextEvent(t, run);
        SoundIn(t);
        GivesExactly(kind, id, t.slot, e);
        AfterCases(t, e);
        var r := Handle(t.slot, e);
        if r.Done? {
          AdvanceLog(t, e, r.slot, r.msg);
        }
      }
    }
  }

  // ---- Both assertions can fail

  /** The run has reached slot s without failing. */
  ghost predicate Reaches(run: seq<Event>, s: Slot) {
    !Play(run).failed && Play(run).slot == s && Play(run).handled == |run|
  }

  lemma Next(run: seq<Event>, e: Event, s: Slot, s2: Slot, m: Option<Message>)
    requires Reaches(run, s) && Handle(s, e) == Done(s2, m)
    ensures Reaches(run + [e], s2)
  {
    hide Handle, Play, After;
    PlayLast(run, e);
    AfterCases(Play(run), e);
  }

  lemma Last(run: seq<Event>, e: Event, s: Slot)
    requires Reaches(run, s) && Handle(s, e).Failed?
    ensures Play(run + [e]).failed && Play(run + [e]).handled == |run| && Play(run + [e]).slot == s
  {
    hide Handle, Play, After;
    PlayLast(run, e);
    AfterCases(Play(run), e);
  }

  lemma Nothing()
    ensures Reaches([], Empty)
  {
  }

  const Reserved1 := Slot(1, Reserve, Unknown, false, false, false, 0, None, true)
  const Connected1 := Slot(1, Connected, Tcp, false, true, false, 0, None, false)
  const AtEof := Flags(false, false, false, true)
  const ToRead := Flags(true, false, false, false)
  const ToWrite := Flags(false, true, false, false)
  const Quietly := Dispatch(ReadError(true), Locked, false, false, 0, false)
  const Finished := Dispatch(EndOfFile, Drained(false, false), false, false, 0, false)

  /** A socket with data on its way is closed twice; its end-of-file entry meets the next reservation. */
  function EofRun(): seq<Event> {
    [ReserveId(1), HandleOpening(1, OpenedNow), CloseRequest(1, false, false), Fetch(AtEof),
      CloseRequest(1, true, false),
     ReserveId(2)]
  }

  const StaleEof := Slot(2, Reserve, Unknown, true, false, false, 0, Some(AtEof), true)

  lemma ToConnected()
    ensures Reaches([ReserveId(1), HandleOpening(1, OpenedNow)], Connected1)
  {
    hide Reaches;
    Nothing();
    Next([], ReserveId(1), Empty, Reserved1, None);
    assert [] + [ReserveId(1)] == [ReserveId(1)];
    Next([ReserveId(1)], HandleOpening(1, OpenedNow), Reserved1, Connected1, Some(Message(Open, 1)));
    assert [ReserveId(1)] + [HandleOpening(1, OpenedNow)] == [ReserveId(1), HandleOpening(1, OpenedNow)];
  }

  lemma ToStaleEof()
    ensures Reaches(EofRun(), StaleEof)
  {
    hide Reaches;
    ToConnected();
    var r := EofRun();
    var s := Connected1.(typ := HalfcloseRead, closing := true, reading := false);
    assert r[..2] == [ReserveId(1), HandleOpening(1, OpenedNow)];
    assert r[..3] == r[..2] + [r[2]] && r[..4] == r[..3] + [r[3]] && r[..5] == r[..4] + [r[4]] && r == r[..5] + [r[5]];
    Next(r[..2], r[2], Connected1, s, Some(Message(Close, 1)));
    Next(r[..3], r[3], s, s.(pending := Some(AtEof)), None);
    Next(r[..4], r[4], s.(pending := Some(AtEof)), s.(pending := Some(AtEof), typ := Invalid), None);
    Next(r[..5], r[5], s.(pending := Some(AtEof), typ := Invalid), StaleEof, None);
  }

  /** The assertion of force_close fails at the end of a run. */
  lemma ForceCloseFails()
    ensures var run := EofRun() + [Quietly];
            && FreshIds(run) && InOrder(run)
            && Handle(Play(EofRun()).slot, Quietly) == Failed(InForceClose)
            && Play(run).failed && Play(run).handled == 6
  {
    ToStaleEof();
    Last(EofRun(), Quietly, StaleEof);
    EofOrder();
  }

  lemma EofOrder()
    ensures FreshIds(EofRun() + [Quietly]) && InOrder(EofRun() + [Quietly])
  {
    var run := EofRun() + [Quietly];
    forall i, j | 0 <= i < j < |run| && run[i].ReserveId? && run[j].CloseRequest? && run[j].id == run[i].id
      ensures Opens(run, i, j)
    {
      assert run[1].HandleOpening?;
    }
  }

  /** A socket at end of file is shut down with bytes unsent; its write entry meets the next reservation. */
  function WriteRun(): seq<Event> {
    [ReserveId(1), HandleOpening(1, OpenedNow), SendRequest(1, 5, true, false, false), Fetch(ToRead), Finished,
     Fetch(ToWrite), CloseRequest(1, true, false), ReserveId(2)]
  }

  const StaleWrite := Slot(2, Reserve, Unknown, false, false, true, 5, Some(ToWrite), true)

  const HalfClosed1 := Slot(1, HalfcloseRead, Tcp, false, false, true, 5, None, false)

  lemma EndOfFile1(s: Slot)
    requires s == Connected1.(unsent := 5, writing := true)
    ensures Handle(s, Fetch(ToRead)) == Done(s.(pending := Some(ToRead)), None)
    ensures Handle(s.(pending := Some(ToRead)), Finished) == Done(HalfClosed1, Some(Message(Close, 1)))
  {
    hide Command, Reserved, AcceptedInto, Sent, UdpInput, ConnectReported;
  }

  lemma ToHalfClosed()
    ensures Reaches(WriteRun()[..5], HalfClosed1)
  {
    hide Reaches;
    ToConnected();
    var r := WriteRun();
    var s := Connected1.(unsent := 5, writing := true);
    assert r[..2] == [ReserveId(1), HandleOpening(1, OpenedNow)];
    assert r[..3] == r[..2] + [r[2]] && r[..4] == r[..3] + [r[3]] && r[..5] == r[..4] + [r[4]];
    Next(r[..2], r[2], Connected1, s, None);
    hide Handle;
    EndOfFile1(s);
    Next(r[..3], r[3], s, s.(pending := Some(ToRead)), None);
    Next(r[..4], r[4], s.(pending := Some(ToRead)), HalfClosed1, Some(Message(Close, 1)));
  }

  lemma ToStaleWrite()
    ensures Reaches(WriteRun(), StaleWrite)
  {
    hide Reaches;
    ToHalfClosed();
    var r := WriteRun();
    var s := HalfClosed1;
    var t := s.(pending := Some(ToWrite));
    assert r[..6] == r[..5] + [r[5]] && r[..7] == r[..6] + [r[6]] && r == r[..7] + [r[7]];
    Next(r[..5], r[5], s, t, None);
    Next(r[..6], r[6], t, t.(typ := Invalid), None);
    Next(r[..7], r[7], t.(typ := Invalid), StaleWrite, None);
  }

  /** The assertion of send_buffer_ fails at the end of a run. */
  lemma SendBufferFails()
    ensures var run := WriteRun() + [Finished];
            && FreshIds(run) && InOrder(run)
            && Handle(Play(WriteRun()).slot, Finished) == Failed(InSendBuffer)
            && Play(run).failed && Play(run).handled == 8
  {
    ToStaleWrite();
    Last(WriteRun(), Finished, StaleWrite);
    WriteOrder();
  }

  lemma WriteOrder()
    ensures FreshIds(WriteRun() + [Finished]) && InOrder(WriteRun() + [Finished])
  {
    var run := WriteRun() + [Finished];
    forall i, j | 0 <= i < j < |run| && run[i].ReserveId? && run[j].CloseRequest? && run[j].id == run[i].id
      ensures Opens(run, i, j)
    {
      assert run[1].HandleOpening?;
    }
  }

  // ---- The slot as the socket thread updates it

  /** What a call leaves behind, as a result. */
  function Outcome(s: Slot, m: Option<Message>, failed: Option<Assertion>): Result {
    if failed.Some? then Failed(failed.value) else Done(s, m)
  }

  lemma CommandKeepsEntry(s: Slot, e: Event)
    ensures Command(s, e).Done? ==> Command(s, e).slot.pending == s.pending
  {
  }

  class SocketSlot {
    var id: int
    var typ: SocketType
    var protocol: Protocol
    var closing: bool
    var reading: bool
    var writing: bool
    var unsent: nat
    var pending: Option<Flags>
    var requested: bool

    function View(): Slot
      reads this
    {
      Slot(id, typ, protocol, closing, reading, writing, unsent, pending, requested)
    }

    constructor ()
      ensures View() == Empty
    {
      id, typ, protocol, closing, reading, writing := 0, Invalid, Unknown, false, false, false;
      unsent, pending, requested := 0, None, false;
    }

    method EnableWrite(enable: bool, fails: bool) returns (err: bool)
      modifies this`writing
      ensures writing == enable && err == (old(writing) != enable && fails)
    {
      err := false;
      if writing != enable {
        writing, err := enable, fails;
      }
    }

    method EnableRead(enable: bool, fails: bool) returns (err: bool)
      modifies this`reading
      ensures reading == enable && err == (old(reading) != enable && fails)
    {
      err := false;
      if reading != enable {
        reading, err := enable, fails;
      }
    }

    method ForceClose(raise: Option<Message>) returns (m: Option<Message>, failed: Option<Assertion>)
      modifies this`typ
      ensures Outcome(View(), m, failed) == Gone(old(View()), raise)
      ensures failed == if old(typ) == Reserve then Some(InForceClose) else None
      ensures old(typ) != Reserve ==> typ == Invalid && m == raise
    {
      m, failed := raise, None;
      if typ == Invalid {
        return;
      }
      if typ == Reserve {
        failed := Some(InForceClose);
        return;
      }
      typ := Invalid;
    }

    method CloseRead()
      modifies this
      ensures View() == ReadClosed(old(View()))
      ensures View() == old(View()).(typ := HalfcloseRead, reading := false)
    {
      typ := HalfcloseRead;
      var _ := EnableRead(false, false);
    }

    method CloseWrite() returns (m: Option<Message>, failed: Option<Assertion>)
      modifies this
      ensures Outcome(View(), m, failed) == WriteFailed(old(View()))
      ensures (old(closing) || old(typ) == HalfcloseRead) && old(typ) != Reserve ==>
                failed == None && m == None && View() == old(View()).(typ := Invalid)
      ensures !old(closing) && old(typ) == HalfcloseWrite ==> failed == None && m == None && View() == old(View())
      ensures !old(closing) && old(typ) !in {HalfcloseRead, HalfcloseWrite} ==>
                && failed == None && m == Some(Message(Err, id))
                && View() == old(View()).(typ := HalfcloseWrite, writing := false)
    {
      m, failed := None, None;
      if closing || typ == HalfcloseRead {
        m, failed := ForceClose(None);
      } else if typ != HalfcloseWrite {
        typ := HalfcloseWrite;
        var _ := EnableWrite(false, false);
        m := Some(Message(Err, id));
      }
    }

    method SendBuffer(w: Sending) returns (m: Option<Message>, failed: Option<Assertion>)
      modifies this
      ensures Outcome(View(), m, failed) == Sent(old(View()), w)
      ensures w == Locked ==> failed == None && m == None && View() == old(View())
      ensures w.Waiting? || (w.WriteError? && old(protocol) != Tcp) ==>
                failed == None && m == None && View() == old(View()).(unsent := w.left)
      ensures w.WriteError? && old(protocol) == Tcp && (old(closing) || old(typ) == HalfcloseRead)
              && old(typ) != Reserve ==>
                failed == None && m == None && View() == old(View()).(unsent := w.left, typ := Invalid)
      ensures w.WriteError? && old(protocol) == Tcp && !old(closing) && old(typ) == HalfcloseWrite ==>
                failed == None && m == None && View() == old(View()).(unsent := w.left)
      ensures w.WriteError? && old(protocol) == Tcp && !old(closing) && old(typ) !in {HalfcloseRead, HalfcloseWrite} ==>
                && failed == None && m == Some(Message(Err, id))
                && View() == old(View()).(unsent := w.left, typ := HalfcloseWrite, writing := false)
      ensures w.Drained? && old(typ) == Reserve && old(unsent) != 0 ==> failed == Some(InSendBuffer)
      ensures w.Drained? && old(closing) && old(typ) != Reserve ==>
                failed == None && m == None && View() == old(View()).(unsent := 0, typ := Invalid)
      ensures w.Drained? && !old(closing) && !(old(typ) == Reserve && old(unsent) != 0) ==>
                && failed == None && View() == old(View()).(unsent := 0, writing := false)
                && m == if old(writing) && w.fails then Some(Message(Err, id))
                        else if w.warned then Some(Message(Warning, id)) else None
    {
      m, failed := None, None;
      match w
      case Locked =>
      case Waiting(left) => unsent := left;
      case WriteError(left) =>
        unsent := left;
        if protocol == Tcp {
          m, failed := CloseWrite();
        }
      case Drained(fails, warned) =>
        if typ == Reserve && unsent != 0 {
          failed := Some(InSendBuffer);
          return;
        }
        unsent := 0;
        if closing {
          m, failed := ForceClose(None);
          return;
        }
        var err := EnableWrite(false, fails);
        if err {
          m := Some(Message(Err, id));
        } else if warned {
          m := Some(Message(Warning, id));
        }
    }

    method ForwardTcp(input: Reading, idle: bool) returns (m: Option<Message>, failed: Option<Assertion>)
      modifies this
      ensures Outcome(View(), m, failed) == TcpInput(old(View()), input, idle)
      ensures !input.EndOfFile? || (!old(closing) && old(typ) == HalfcloseRead) ==>
              failed == None && View() == old(View())
      ensures input.ReadError? ==> m == if input.again then None else Some(Message(Err, id))
      ensures input.Bytes? ==> m == if old(typ) == HalfcloseRead then None else Some(Message(Data, id))
      ensures input.EndOfFile? && !old(closing) ==>
              m == if old(typ) == HalfcloseRead then None else Some(Message(Close, id))
      ensures input.EndOfFile? && !old(closing) && old(typ) !in {HalfcloseRead, HalfcloseWrite} ==>
                failed == None && View() == old(View()).(typ := HalfcloseRead, reading := false)
      ensures input.EndOfFile? && !old(closing) && old(typ) == HalfcloseWrite ==>
                failed == None && View() == old(View()).(typ := Invalid)
      ensures input.EndOfFile? && old(closing) && old(typ) != Reserve ==>
                && failed == None && m == None
                && View() == old(View()).(typ := if idle || old(typ) == HalfcloseWrite then Invalid else old(typ))
    {
      m, failed := None, None;
      match input
      case ReadError(again) =>
        if !again {
          m := Some(Message(Err, id));
        }
      case EndOfFile =>
        if closing {
          if NoMoreSending(View(), idle) {
            m, failed := ForceClose(None);
          }
          return;
        }
        if typ == HalfcloseRead {
          return;
        }
        if typ == HalfcloseWrite {
          m, failed := ForceClose(Some(Message(Close, id)));
        } else {
          CloseRead();
          m := Some(Message(Close, id));
        }
      case Bytes(_) =>
        if typ != HalfcloseRead {
          m := Some(Message(Data, id));
        }
    }

    method ForwardUdp(input: Reading) returns (m: Option<Message>, failed: Option<Assertion>)
      modifies this
      ensures Outcome(View(), m, failed) == UdpInput(old(View()), input)
      ensures input == ReadError(false) && old(typ) != Reserve ==>
                failed == None && m == Some(Message(Err, id)) && View() == old(View()).(typ := Invalid)
      ensures input != ReadError(false) ==>
                && failed == None && View() == old(View())
                && m == if input.ReadError? || old(protocol) == Unknown then None else Some(Message(UdpData, id))
    {
      m, failed := None, None;
      if input.ReadError? {
        if !input.again {
          m, failed := ForceClose(Some(Message(Err, id)));
        }
      } else if protocol != Unknown {
        m := Some(Message(UdpData, id));
      }
    }

    method ReportConnect(ok: bool, idle: bool, fails: bool) returns (m: Option<Message>, failed: Option<Assertion>)
      requires typ == Connecting
      modifies this
      ensures Outcome(View(), m, failed) == ConnectReported(old(View()), ok, idle, fails)
      ensures failed == None
      ensures var refused := !ok || (idle && old(writing) && fails);
              && m == Some(Message(if refused then Err else Open, id))
              && View() == old(View()).(
                typ := if refused then Invalid else Connected, writing := old(writing) && (!ok || !idle))
    {
      if !ok {
        m, failed := ForceClose(Some(Message(Err, id)));
        return;
      }
      typ, failed := Connected, None;
      if NoMoreSending(View(), idle) {
        var err := EnableWrite(false, fails);
        if err {
          m, failed := ForceClose(Some(Message(Err, id)));
          return;
        }
      }
      m := Some(Message(Open, id));
    }

    method ReserveSlot(newId: int)
      modifies this
      ensures View() == Reserved(old(View()), newId)
      ensures View() == if old(typ) == Invalid
              then old(View()).(id := newId, typ := Reserve, protocol := Unknown, requested := true)
              else old(View())
    {
      if typ == Invalid {
        typ, id, protocol, requested := Reserve, newId, Unknown, true;
      }
    }

    /** new_fd past its assertion; 'added' and 'late' say whether and where the poller refuses. */
    method NewFd(proto: Protocol, readable: bool, added: bool, late: bool) returns (ok: bool)
      modifies this
      ensures ok == added
      ensures View() == var t := if added || late then Fresh(old(View()), proto, readable) else old(View());
                        if added then t else t.(typ := Invalid)
    {
      ok := false;
      if !added && !late {
        typ := Invalid;
        return;
      }
      reading, writing, closing, protocol, unsent := true, false, false, proto, 0;
      var err := EnableRead(readable, !added);
      if !added {
        typ := Invalid;
        return;
      }
      ok := true;
    }

    method OpenSlot(who: int, how: Opening) returns (m: Option<Message>, failed: Option<Assertion>)
      modifies this
      ensures Outcome(View(), m, failed) == Opened(old(View()), who, how)
      ensures !old(requested) || id != who ==> failed == None && m == None && View() == old(View())
      ensures old(requested) && id == who && old(typ) != Reserve ==> failed == Some(InNewFd)
      ensures old(requested) && id == who && old(typ) == Reserve ==>
                && failed == None && id == old(id) && pending == old(pending) && !requested
                && typ == (match how
                           case NoAddress | NotAdded(_) | WriteNotEnabled | UdpNotAdded => Invalid
                           case OpenLater => Connecting
                           case Listening(_) => PListen
                           case Binding => Bind
                           case OpenedNow | UdpSocket => Connected)
                && m == (match how
                         case NoAddress | NotAdded(_) | WriteNotEnabled => Some(Message(Err, id))
                         case OpenedNow | Binding => Some(Message(Open, id))
                         case Listening(named) => Some(Message(if named then Open else Err, id))
                         case OpenLater | UdpSocket | UdpNotAdded => None)
                && (Live(typ) ==>
                      && protocol == (if how.UdpSocket? then Udp else Tcp) && !closing && unsent == 0
                      && reading == !how.Listening? && writing == how.OpenLater?)
    {
      m, failed := None, None;
      if !requested || id != who {
        return;
      }
      if typ != Reserve {
        failed := Some(InNewFd);
        return;
      }
      requested := false;
      var ok := how != NoAddress;
      if ok {
        ok := NewFd(
          if how.UdpSocket? || how.UdpNotAdded? then Udp else Tcp, !how.Listening? && !how.NotAdded?,
          !how.NotAdded? && !how.UdpNotAdded?, how.NotAdded? && how.late
        );
      }
      if !ok {
        typ := Invalid;
        if how != UdpNotAdded {
          m := Some(Message(Err, id));
        }
        return;
      }
      if how.OpenLater? {
        var _ := EnableWrite(true, false);
        typ := Connecting;
      } else if how.WriteNotEnabled? {
        var _ := EnableWrite(true, true);
        typ, m := Invalid, Some(Message(Err, id));
      } else if how.Listening? {
        typ, m := PListen, Some(Message(if how.named then Open else Err, id));
      } else if how.Binding? {
        typ, m := Bind, Some(Message(Open, id));
      } else {
        typ := Connected;
        if how.OpenedNow? {
          m := Some(Message(Open, id));
        }
      }
    }

    method AcceptHere(newId: int, added: bool, late: bool)
      modifies this
      ensures View() == AcceptedInto(old(View()), newId, added, late)
      ensures old(typ) != Invalid ==> View() == old(View())
      ensures old(typ) == Invalid ==>
              && id == newId && pending == old(pending)
              && typ == if added then PAccept else Invalid
      ensures old(typ) == Invalid && added ==>
                protocol == Tcp && !closing && !reading && !writing && unsent == 0 && requested == old(requested)
    {
      if typ == Invalid {
        typ, id, protocol := Reserve, newId, Unknown;
        var ok := NewFd(Tcp, false, added, late);
        if ok {
          typ := PAccept;
        }
      }
    }

    method ResumeSocket(who: int, fails: bool) returns (m: Option<Message>)
      modifies this
      ensures Done(View(), m) == Resumed(old(View()), who, fails)
      ensures old(typ) in {Invalid, HalfcloseRead} || id != who ==>
              m == Some(Message(Err, who)) && View() == old(View())
      ensures old(typ) !in {Invalid, HalfcloseRead} && id == who && !old(reading) && fails ==>
                m == Some(Message(Err, id)) && View() == old(View()).(reading := true)
      ensures old(typ) !in {Invalid, HalfcloseRead} && id == who && (old(reading) || !fails) ==>
                && m == (if old(typ) in {PAccept, PListen, Connected} then Some(Message(Open, id)) else None)
                && View() == old(View()).(
                  reading := true,
                  typ := if old(typ) == PAccept then Connected else if old(typ) == PListen then Listen else old(typ))
    {
      m := Some(Message(Err, who));
      if SocketInvalid(View(), who) || typ == HalfcloseRead {
        return;
      }
      var err := EnableRead(true, fails);
      if err {
        return;
      }
      m := Some(Message(Open, who));
      if typ == PAccept || typ == PListen {
        typ := if typ == PAccept then Connected else Listen;
      } else if typ != Connected {
        m := None;
      }
    }

    method PauseSocket(who: int, fails: bool) returns (m: Option<Message>)
      modifies this
      ensures Done(View(), m) == Paused(old(View()), who, fails)
      ensures old(typ) == Invalid || id != who ==> m == None && View() == old(View())
      ensures old(typ) != Invalid && id == who ==>
                && View() == old(View()).(reading := false)
                && m == if old(reading) && fails then Some(Message(Err, id)) else None
    {
      m := None;
      if !SocketInvalid(View(), who) {
        var err := EnableRead(false, fails);
        if err {
          m := Some(Message(Err, id));
        }
      }
    }

    method CloseSocket(who: int, shutdown: bool, idle: bool) returns (m: Option<Message>, failed: Option<Assertion>)
      modifies this
      ensures Outcome(View(), m, failed) == CloseRequested(old(View()), who, shutdown, idle)
      ensures old(typ) == Invalid || id != who ==> failed == None && m == None && View() == old(View())
      ensures Live(old(typ)) && id == who ==>
                failed == None && m == if old(typ) == HalfcloseRead then None else Some(Message(Close, id))
      ensures Live(old(typ)) && id == who ==>
                View() == if shutdown || idle || old(typ) == HalfcloseWrite then old(View()).(typ := Invalid)
                          else old(View()).(
                            closing := true, typ := HalfcloseRead,
                            reading := if old(typ) == HalfcloseRead then old(reading) else false)
    {
      m, failed := None, None;
      if SocketInvalid(View(), who) {
        return;
      }
      var shutdownRead := typ == HalfcloseRead;
      if shutdown || NoMoreSending(View(), idle) {
        m, failed := ForceClose(if shutdownRead then None else Some(Message(Close, id)));
        return;
      }
      closing := true;
      if !shutdownRead {
        CloseRead();
        m := Some(Message(Close, id));
      }
    }

    method SendSocket(who: int, size: nat, empty: bool, fails: bool, warns: bool) returns (m: Option<Message>)
      modifies this
      ensures Done(View(), m) == SendRequested(old(View()), who, size, empty, fails, warns)
      ensures old(typ) !in {Connecting, Connected, HalfcloseRead, Bind} || id != who || old(closing) ==>
                m == None && View() == old(View())
      ensures old(typ) in {Connecting, Connected, HalfcloseRead, Bind} && id == who && !old(closing) ==>
                && View() == old(View()).(unsent := old(unsent) + size, writing := old(writing) || empty)
                && m == if empty && !old(writing) && fails then Some(Message(Err, id))
                        else if warns then Some(Message(Warning, id)) else None
    {
      m := None;
      if typ == Invalid || id != who || typ == HalfcloseWrite || typ == PAccept || closing {
        return;
      }
      if typ == PListen || typ == Listen || typ == Reserve {
        return;
      }
      unsent := unsent + size;
      if empty {
        var err := EnableWrite(true, fails);
        if err {
          m := Some(Message(Err, id));
          return;
        }
      }
      if warns {
        m := Some(Message(Warning, id));
      }
    }

    method Trigger(who: int, fails: bool) returns (m: Option<Message>)
      modifies this
      ensures Done(View(), m) == Triggered(old(View()), who, fails)
      ensures old(typ) == Invalid || id != who ==> m == None && View() == old(View())
      ensures old(typ) != Invalid && id == who ==>
                && View() == old(View()).(writing := true)
                && m == if !old(writing) && fails then Some(Message(Err, id)) else None
    {
      m := None;
      if !SocketInvalid(View(), who) {
        var err := EnableWrite(true, fails);
        if err {
          m := Some(Message(Err, id));
        }
      }
    }

    /** A command and the clear_closed_event after it. */
    method ServeCommand(e: Event) returns (m: Option<Message>, failed: Option<Assertion>)
      modifies this
      ensures Outcome(View(), m, failed) == Cleared(Command(old(View()), e))
      ensures failed == None && m.Some? && m.value.kind in {Close, Err} && m.value.id == id && typ == Invalid ==>
              pending == None
      ensures failed == None && (m == None || m.value.kind !in {Close, Err} || typ != Invalid) ==>
              pending == old(pending)
    {
      hide Opened, Resumed, Paused, CloseRequested, SendRequested, Triggered;
      CommandKeepsEntry(View(), e);
      m, failed := None, None;
      match e {
        case HandleOpening(who, how) => m, failed := OpenSlot(who, how);
        case Resume(who, fails) => m := ResumeSocket(who, fails);
        case Pause(who, fails) => m := PauseSocket(who, fails);
        case CloseRequest(who, shutdown, idle) => m, failed := CloseSocket(who, shutdown, idle);
        case SendRequest(who, size, empty, fails, warns) => m := SendSocket(who, size, empty, fails, warns);
        case TriggerWrite(who, fails) => m := Trigger(who, fails);
        case _ =>
      }
      if m.Some? && m.value.kind in {Close, Err} && typ == Invalid && id == m.value.id {
        pending := None;
      }
    }

    method ServeEntry(e: Event) returns (m: Option<Message>, failed: Option<Assertion>)
      requires e.Dispatch?
      modifies this
      ensures Outcome(View(), m, failed) == Dispatched(old(View()), e)
      ensures old(pending) == None || old(typ) == Invalid ==>
                failed == None && m == None && View() == old(View()).(pending := None)
      ensures old(pending).Some? && old(typ) == Connecting ==>
                Outcome(View(), m, failed) == ConnectReported(old(View()).(pending := None), e.connected, e.idle,
                  e.fails)
      ensures old(pending).Some? && old(typ) == Listen ==>
                && failed == None && View() == old(View()).(pending := None)
                && m == if e.accepted > 0 then Some(Message(Accept, id))
                        else if e.accepted < 0 then Some(Message(Err, id)) else None
      ensures old(pending).Some? && old(typ) !in {Connecting, Listen, Invalid} ==>
                Outcome(View(), m, failed) == Flagged(old(View()).(pending := None), old(pending).value, e)
    {
      hide Flagged, ConnectReported;
      m, failed := None, None;
      if pending == None {
        return;
      }
      var f := pending.value;
      pending := None;
      match typ
      case Connecting => m, failed := ReportConnect(e.connected, e.idle, e.fails);
      case Listen =>
        if e.accepted > 0 {
          m := Some(Message(Accept, id));
        } else if e.accepted < 0 {
          m := Some(Message(Err, id));
        }
      case Invalid =>
      case _ => m, failed := ServeFlags(f, e);
    }

    method ServeFlags(f: Flags, e: Event) returns (m: Option<Message>, failed: Option<Assertion>)
      requires e.Dispatch?
      modifies this
      ensures Outcome(View(), m, failed) == Flagged(old(View()), f, e)
      ensures f.read && old(protocol) == Tcp ==>
                Outcome(View(), m, failed) == Again(f, TcpInput(old(View()), e.input, e.idle), e.input)
      ensures f.read && old(protocol) != Tcp ==>
                Outcome(View(), m, failed) == Again(f, UdpInput(old(View()), e.input), e.input)
      ensures !f.read && f.write ==> Outcome(View(), m, failed) == Sent(old(View()), e.sending)
      ensures !f.read && !f.write && f.error ==> failed == None && m == Some(Message(Err, id)) && View() == old(View())
      ensures !f.read && !f.write && !f.error && f.eof && old(typ) != Reserve ==>
                && failed == None && View() == old(View()).(typ := Invalid)
                && m == if old(typ) == HalfcloseRead then None else Some(Message(Close, id))
      ensures !f.read && !f.write && !f.error && !f.eof ==> failed == None && m == None && View() == old(View())
    {
      hide Sent, TcpInput, UdpInput;
      m, failed := None, None;
      if f.read {
        if protocol == Tcp {
          m, failed := ForwardTcp(e.input, e.idle);
        } else {
          m, failed := ForwardUdp(e.input);
        }
        KeepEntry(f, e.input, m, failed);
      } else if f.write {
        m, failed := SendBuffer(e.sending);
      } else if f.error {
        m := Some(Message(Err, id));
      } else if f.eof {
        m, failed := ForceClose(if typ == HalfcloseRead then None else Some(Message(Close, id)));
      }
    }

    /** More data or a write flag leave the entry in the array. */
    method KeepEntry(f: Flags, input: Reading, m: Option<Message>, failed: Option<Assertion>)
      modifies this`pending
      ensures Outcome(View(), m, failed) == Again(f, Outcome(old(View()), m, failed), input)
      ensures failed == None && m.Some? &&
              ((m.value.kind == Data && input == Bytes(true)) || m.value.kind == UdpData) ==>
                pending == Some(f)
      ensures failed == None && (m == None || (m.value.kind == Data && input != Bytes(true))) && f.write ==>
                pending == Some(f.(read := false))
      ensures m.Some? && m.value.kind in {Close, Err} ==> pending == old(pending)
      ensures !f.write && !(m.Some? && m.value.kind in {Data, UdpData}) ==> pending == old(pending)
    {
      if failed == None {
        if m.Some? && ((m.value.kind == Data && input == Bytes(true)) || m.value.kind == UdpData) {
          pending := Some(f);
        } else if f.write && !(m.Some? && m.value.kind in {Close, Err}) {
          pending := Some(f.(read := false));
        }
      }
    }

    method Step(e: Event) returns (m: Option<Message>, failed: Option<Assertion>)
      modifies this
      ensures Outcome(View(), m, failed) == Handle(old(View()), e)
      ensures e.Fetch? ==>
                && failed == None && m == None
                && View() == if Live(old(typ)) && old(pending) == None then old(View()).(pending := Some(e.flags))
                             else old(View())
      ensures e.ReserveId? && old(typ) == Invalid ==>
                View() == old(View()).(id := e.id, typ := Reserve, protocol := Unknown, requested := true)
      ensures e.AcceptInto? && old(typ) == Invalid && e.added ==> id == e.id && typ == PAccept && protocol == Tcp
      ensures (e.ReserveId? || e.AcceptInto?) && old(typ) != Invalid ==> View() == old(View())
      ensures e.Dispatch? && old(pending) == None ==> failed == None && m == None && View() == old(View())
    {
      hide Cleared, Command, Dispatched, Reserved, AcceptedInto;
      m, failed := None, None;
      match e
      case ReserveId(newId) => ReserveSlot(newId);
      case AcceptInto(newId, added, late) => AcceptHere(newId, added, late);
      case Fetch(flags) =>
        if Live(typ) && pending == None {
          pending := Some(flags);
        }
      case Dispatch(_, _, _, _, _, _) => m, failed := ServeEntry(e);
      case _ => m, failed := ServeCommand(e);
    }
  }

  /** Nothing is handled after a failure. */
  lemma {:induction false} NothingAfter(run: seq<Event>, k: nat)
    requires k <= |run| && Play(run[..k]).failed
    ensures Play(run) == Play(run[..k])
    decreases |run| - k
  {
    hide Handle;
    if k == |run| {
      assert run[..k] == run;
    } else {
      assert run[..k + 1] == run[..k] + [run[k]];
      PlayLast(run[..k], run[k]);
      NothingAfter(run, k + 1);
    }
  }

  lemma PlayNone()
    ensures Play([]) == Trace(Empty, [], 0, false, {}, {}, {})
  {
  }

  lemma AdvanceLog(t: Trace, e: Event, s: Slot, m: Option<Message>)
    ensures Advance(t, e, s, m).log == t.log + Raised(m)
  {
  }

  /**
   The socket thread serves a slot until an assertion fails: what it raises and how far it gets are
   those of the run, so with ids given out once and requests in order everything CloseOnce says holds
   of this log.
   */
  method Serve(run: seq<Event>) returns (log: seq<Message>, handled: nat, failed: bool, last: Slot)
    ensures var t := Play(run); log == t.log && handled == t.handled && failed == t.failed && last == t.slot
    ensures FreshIds(run) && InOrder(run) ==> Quiet(log)
    ensures FreshIds(run) && InOrder(run) ==> (failed <==> handled < |run|)
    ensures FreshIds(run) && InOrder(run) && failed ==> run[handled].Dispatch? && Stray(last, run[handled])
    ensures FreshIds(run) && InOrder(run) ==>
              forall x :: Message(Open, x) in log && HandleOpening(x, UdpSocket) !in run ==>
                Closed(log, x) || (x == last.id && Live(last.typ))
    ensures FreshIds(run) && InOrder(run) ==>
              forall kind, id :: kind != Warning ==> multiset(log)[Message(kind, id)] == Occasions(run, kind, id)
  {
    hide Occasions;
    hide Handle, Play, After, Advance, FreshIds, InOrder, Quiet, Closed, Stray;
    PlayNone();
    var slot := new SocketSlot();
    log, handled, failed, last := [], 0, false, Empty;
    assert run[..0] == [];
    var i := 0;
    while i < |run| && !failed
      invariant 0 <= i <= |run|
      invariant var t := Play(run[..i]); log == t.log && handled == t.handled && failed == t.failed && last == t.slot
      invariant !failed ==> slot.View() == last
    {
      assert run[..i + 1] == run[..i] + [run[i]];
      PlayLast(run[..i], run[i]);
      AfterCases(Play(run[..i]), run[i]);
      var m, at := slot.Step(run[i]);
      if at.Some? {
        failed := true;
      } else {
        AdvanceLog(Play(run[..i]), run[i], slot.View(), m);
        log, handled, last := log + Raised(m), handled + 1, slot.View();
      }
      i := i + 1;
    }
    assert run[..|run|] == run;
    if failed {
      NothingAfter(run, i);
    }
    if FreshIds(run) && InOrder(run) {
      CloseOnce(run);
      forall kind, id | kind != Warning ensures multiset(log)[Message(kind, id)] == Occasions(run, kind, id) {
        RaisedAsOften(run, kind, id);
      }
    }
  }
}
