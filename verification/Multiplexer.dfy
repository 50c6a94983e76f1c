/** One tool subprocess shared by many clients: every call gets a fresh key, a table maps the keys
    in flight to reply channels, reader loops deliver replies, and cancellations, `Stop` and
    exiting readers withdraw or close what is left. The steps are the source's critical sections
    and channel operations, taken by any number of callers and readers in any order. */
module Multiplexer {
  import opened Ordering

  /** The request counter is a 64-bit unsigned integer. */
  const WRAP: nat := 0x1_0000_0000_0000_0000

  type CallId = nat
  type ReaderId = nat

  datatype Kind = Client | Handshake

  /** A line read from the subprocess: its raw id and its position among all lines read. */
  datatype Response = Response(id: string, line: nat)

  datatype Outcome = Reply(resp: Response) | ConnectionClosed | Failed

  datatype Phase = Numbered | Registered | Waiting | Cancelling | Done(outcome: Outcome)

  /** `num` counts the calls; the number in the key is taken modulo the counter's width. */
  datatype Call = Call(kind: Kind, clientId: string, num: nat, key: string, phase: Phase)

  /** A reply channel of capacity one, with the history of what was done to it. */
  datatype Channel = Channel(buffer: Option<Response>, sends: nat, closes: nat)

  const OPEN := Channel(None, 0, 0)

  datatype ReaderPhase = Scanning | Holding(ch: CallId, resp: Response) | Ending | Draining | Gone

  datatype Status = REGISTERED | STARTING | RUNNING | STOPPING | STOPPED | FAILED

  /** Who holds the tool's lock for longer than one step. */
  datatype Mutex = Free | HeldByStart | HeldByStop

  datatype State = State(
    issued: nat,
    pending: map<string, CallId>,
    calls: map<CallId, Call>,
    chans: map<CallId, Channel>,
    readers: map<ReaderId, ReaderPhase>,
    log: seq<string>,
    status: Status, current: Option<ReaderId>, mu: Mutex)

  const INITIAL := State(0, map[], map[], map[], map[], [], REGISTERED, None, Free)

  /* ---- keys ---- */

  function Digit(d: nat): char
    requires d < 10
  {
    "0123456789"[d]
  }

  function Decimal(n: nat): string {
    if n < 10 then [Digit(n)] else Decimal(n / 10) + [Digit(n % 10)]
  }

  /** The quoted id that is written to the subprocess. */
  function KeyOf(kind: Kind, n: nat): string {
    (if kind.Client? then "\"req-" else "\"internal-") + Decimal(n) + "\""
  }

  lemma {:induction false} DecimalInjective(m: nat, n: nat)
    requires Decimal(m) == Decimal(n)
    ensures m == n
  {
    var s, t := Decimal(m), Decimal(n);
    assert s[|s| - 1] == Digit(m % 10) && t[|t| - 1] == Digit(n % 10);
    DecimalLength(m);
    DecimalLength(n);
    if m >= 10 && n >= 10 {
      assert s[..|s| - 1] == Decimal(m / 10) && t[..|t| - 1] == Decimal(n / 10);
      DecimalInjective(m / 10, n / 10);
    }
  }

  lemma DecimalLength(n: nat)
    ensures n < 10 <==> |Decimal(n)| == 1
    ensures |Decimal(n)| >= 1
  {
    if n >= 10 {
      DecimalLength(n / 10);
    }
  }

  /** Different kinds or different numbers never share a key. */
  lemma KeyInjective(j: Kind, m: nat, k: Kind, n: nat)
    requires KeyOf(j, m) == KeyOf(k, n)
    ensures j == k && m == n
  {
    var s := KeyOf(j, m);
    assert s[1] == if j.Client? then 'r' else 'i';
    assert s[1] == if k.Client? then 'r' else 'i';
    var p := if j.Client? then |"\"req-"| else |"\"internal-"|;
    assert s[p..|s| - 1] == Decimal(m);
    assert s[p..|s| - 1] == Decimal(n);
    DecimalInjective(m, n);
  }

  /** The only way to meet a key again is for the 64-bit counter to go all the way round. */
  lemma KeysRepeatOnlyByWrapping(kind: Kind, m: nat, n: nat)
    ensures KeyOf(kind, m % WRAP) == KeyOf(kind, n % WRAP) <==> m % WRAP == n % WRAP
  {
    if KeyOf(kind, m % WRAP) == KeyOf(kind, n % WRAP) {
      KeyInjective(kind, m % WRAP, kind, n % WRAP);
    }
  }

  /* ---- steps ---- */

  datatype Step =
    // a call
    | Number(c: CallId, kind: Kind, clientId: string) | Register(c: CallId) | Send(c: CallId) | Fail(c: CallId)
    | GiveUp(c: CallId) | Withdraw(c: CallId) | Receive(c: CallId)
    // a reader loop
    | ReadLine(r: ReaderId, id: string) | Deliver(r: ReaderId) | EndOfStream(r: ReaderId)
    | MarkStopped(r: ReaderId) | Drain(r: ReaderId)
    // starting and stopping
    | StartBegin | Spawn(r: ReaderId) | SpawnFails | StartEnd | StopBegin | StopReset | StopDrain

  predicate At(s: State, c: CallId, p: Phase) {
    c in s.calls && s.calls[c].phase == p
  }

  predicate Reading(s: State, r: ReaderId, p: ReaderPhase) {
    r in s.readers && s.readers[r] == p
  }

  predicate Enabled(s: State, step: Step) {
    match step
    case Number(c, _, _) => c !in s.calls
    case Register(c) => At(s, c, Numbered)
    case Send(c) => At(s, c, Registered)
    case Fail(c) => At(s, c, Registered)
    case GiveUp(c) => At(s, c, Waiting)
    case Withdraw(c) => At(s, c, Cancelling)
    case Receive(c) => At(s, c, Waiting) && c in s.chans && (s.chans[c].buffer.Some? || s.chans[c].closes > 0)
    case ReadLine(r, _) => Reading(s, r, Scanning)
    case Deliver(r) => r in s.readers && s.readers[r].Holding? && s.readers[r].ch in s.chans
    case EndOfStream(r) => Reading(s, r, Scanning)
    case MarkStopped(r) => Reading(s, r, Ending) && s.mu.Free?
    case Drain(r) => Reading(s, r, Draining)
    case StartBegin => s.mu.Free? && s.status != RUNNING
    case Spawn(r) => s.mu.HeldByStart? && s.status == STARTING && r !in s.readers
    case SpawnFails => s.mu.HeldByStart? && s.status == STARTING
    case StartEnd => s.mu.HeldByStart? && s.status != STARTING
    case StopBegin => s.mu.Free? && (s.status == RUNNING || s.status == STARTING)
    case StopReset => s.mu.HeldByStop? && s.status == STOPPING
    case StopDrain => s.mu.HeldByStop? && s.status == REGISTERED
  }

  function Moved(s: State, c: CallId, p: Phase): map<CallId, Call>
    requires c in s.calls
  {
    s.calls[c := s.calls[c].(phase := p)]
  }

  /** Closing every channel in the table. */
  function CloseAll(pending: map<string, CallId>, chans: map<CallId, Channel>): map<CallId, Channel> {
    map c | c in chans :: if c in pending.Values then chans[c].(closes := chans[c].closes + 1) else chans[c]
  }

  function Apply(s: State, step: Step): State
    requires Enabled(s, step)
  {
    match step
    case Number(c, kind, clientId) =>
      var call := Call(kind, clientId, s.issued + 1, KeyOf(kind, (s.issued + 1) % WRAP), Numbered);
      s.(issued := s.issued + 1, calls := s.calls[c := call])
    case Register(c) =>
      s.(pending := s.pending[s.calls[c].key := c], chans := s.chans[c := OPEN], calls := Moved(s, c, Registered))
    case Send(c) => s.(calls := Moved(s, c, Waiting))
    case Fail(c) => s.(pending := s.pending - {s.calls[c].key}, calls := Moved(s, c, Done(Failed)))
    case GiveUp(c) => s.(calls := Moved(s, c, Cancelling))
    case Withdraw(c) => s.(pending := s.pending - {s.calls[c].key}, calls := Moved(s, c, Done(Failed)))
    case Receive(c) =>
      var ch := s.chans[c];
      if ch.buffer.Some? then
        s.(chans := s.chans[c := ch.(buffer := None)], calls := Moved(s, c, Done(Reply(ch.buffer.value))))
      else
        s.(calls := Moved(s, c, Done(ConnectionClosed)))
    case ReadLine(r, id) =>
      var s' := s.(log := s.log + [id]);
      if id in s.pending then
        s'.(pending := s.pending - {id}, readers := s.readers[r := Holding(s.pending[id], Response(id, |s.log|))])
      else s'
    case Deliver(r) =>
      var (ch, resp) := (s.readers[r].ch, s.readers[r].resp);
      s.(chans := s.chans[ch := s.chans[ch].(buffer := Some(resp), sends := s.chans[ch].sends + 1)],
         readers := s.readers[r := Scanning])
    case EndOfStream(r) => s.(readers := s.readers[r := Ending])
    case MarkStopped(r) =>
      s.(status := if s.current == Some(r) && s.status == RUNNING then STOPPED else s.status,
         readers := s.readers[r := Draining])
    case Drain(r) =>
      s.(pending := map[], chans := CloseAll(s.pending, s.chans), readers := s.readers[r := Gone])
    case StartBegin => s.(mu := HeldByStart, status := STARTING)
    case Spawn(r) => s.(status := RUNNING, current := Some(r), readers := s.readers[r := Scanning])
    case SpawnFails => s.(status := FAILED)
    case StartEnd => s.(mu := Free)
    case StopBegin => s.(mu := HeldByStop, status := STOPPING)
    case StopReset => s.(status := REGISTERED, current := None)
    case StopDrain => s.(pending := map[], chans := CloseAll(s.pending, s.chans), mu := Free)
  }

  ghost predicate IsRun(s: State, steps: seq<Step>)
    decreases |steps|
  {
    steps == [] || (Enabled(s, steps[0]) && IsRun(Apply(s, steps[0]), steps[1..]))
  }

  ghost function Final(s: State, steps: seq<Step>): State
    requires IsRun(s, steps)
    decreases |steps|
  {
    if steps == [] then s else Final(Apply(s, steps[0]), steps[1..])
  }

  /* ---- the invariant ---- */

  /** Calls have different numbers, all issued. */
  ghost predicate NumbersUnique(s: State) {
    && (forall c | c in s.calls :: 0 < s.calls[c].num <= s.issued
         && s.calls[c].key == KeyOf(s.calls[c].kind, s.calls[c].num % WRAP))
    && (forall c, d | c in s.calls && d in s.calls && s.calls[c].num == s.calls[d].num :: c == d)
  }

  /** A call has a channel from the moment it is registered. */
  ghost predicate ChannelsExist(s: State) {
    forall c :: c in s.chans <==> c in s.calls && s.calls[c].phase != Numbered
  }

  ghost predicate InFlight(s: State, c: CallId) {
    c in s.calls && (s.calls[c].phase == Registered || s.calls[c].phase == Waiting || s.calls[c].phase == Cancelling)
  }

  /** Every entry of the table is the untouched channel of the call in flight that owns the key. */
  ghost predicate TableSound(s: State) {
    forall k | k in s.pending ::
      var c := s.pending[k];
      InFlight(s, c) && s.calls[c].key == k && c in s.chans && s.chans[c] == OPEN
  }

  ghost predicate Holds(s: State, r: ReaderId, c: CallId) {
    r in s.readers && s.readers[r].Holding? && s.readers[r].ch == c
  }

  /** A reader about to send holds an untouched channel that is in no table and with no other reader. */
  ghost predicate HoldersSound(s: State) {
    && (forall r, c | Holds(s, r, c) ::
          && c in s.chans && c in s.calls && s.chans[c] == OPEN
          && s.calls[c].key !in s.pending
          && Authentic(s, s.readers[r].resp, c))
    && (forall q, r, c | Holds(s, q, c) && Holds(s, r, c) :: q == r)
  }

  /** The response is a line that was read, and its id is the call's own key. */
  ghost predicate Authentic(s: State, resp: Response, c: CallId) {
    && c in s.calls
    && resp.line < |s.log| && s.log[resp.line] == resp.id
    && resp.id == s.calls[c].key
  }

  /** At most one send or one close per channel, and what was sent was meant for the call. */
  ghost predicate ChannelsSound(s: State) {
    forall c | c in s.chans ::
      && s.chans[c].sends + s.chans[c].closes <= 1
      && (s.chans[c].buffer.Some? ==> s.chans[c].sends == 1 && Authentic(s, s.chans[c].buffer.value, c))
  }

  ghost predicate RepliesSound(s: State) {
    forall c | c in s.calls && s.calls[c].phase.Done? && s.calls[c].phase.outcome.Reply? ::
      Authentic(s, s.calls[c].phase.outcome.resp, c)
  }

  /** A call in flight is never forgotten: it is in the table, with a reader, answered or closed. */
  ghost predicate Accounted(s: State, c: CallId) {
    || (c in s.calls && s.calls[c].key in s.pending && s.pending[s.calls[c].key] == c)
    || (exists r :: Holds(s, r, c))
    || (c in s.chans && (s.chans[c].buffer.Some? || s.chans[c].closes == 1))
  }

  ghost predicate NoneForgotten(s: State) {
    forall c | InFlight(s, c) :: Accounted(s, c)
  }

  ghost predicate KeysDistinct(s: State) {
    forall c, d | c in s.calls && d in s.calls && s.calls[c].key == s.calls[d].key :: c == d
  }

  ghost predicate Core(s: State) {
    && KeysDistinct(s) && ChannelsExist(s) && TableSound(s) && HoldersSound(s)
    && ChannelsSound(s) && RepliesSound(s) && NoneForgotten(s)
  }

  ghost predicate Inv(s: State) {
    NumbersUnique(s) && Core(s)
  }

  /** While the counter has not wrapped, different calls have different keys. */
  lemma KeysUnique(s: State, c: CallId, d: CallId)
    requires NumbersUnique(s) && s.issued < WRAP && c in s.calls && d in s.calls
    requires s.calls[c].key == s.calls[d].key
    ensures c == d
  {
    var m, n := s.calls[c].num, s.calls[d].num;
    NotWrapped(m);
    NotWrapped(n);
    assert s.calls[c].key == KeyOf(s.calls[c].kind, m) && s.calls[d].key == KeyOf(s.calls[d].kind, n);
    KeyInjective(s.calls[c].kind, m, s.calls[d].kind, n);
  }

  lemma AllKeysUnique(s: State)
    requires NumbersUnique(s) && s.issued < WRAP
    ensures KeysDistinct(s)
  {
    forall c, d | c in s.calls && d in s.calls && s.calls[c].key == s.calls[d].key
      ensures c == d
    {
      KeysUnique(s, c, d);
    }
  }

  /** Only numbering a call changes who has which number and key. */
  lemma NumbersKept(s: State, step: Step)
    requires NumbersUnique(s) && Enabled(s, step)
    ensures NumbersUnique(Apply(s, step))
  {
    var t := Apply(s, step);
    if !step.Number? {
      SameNumbers(s, step);
    }
  }

  lemma SameNumbers(s: State, step: Step)
    requires Enabled(s, step) && !step.Number?
    ensures Apply(s, step).issued == s.issued && Apply(s, step).calls.Keys == s.calls.Keys
    ensures forall c | c in s.calls :: Apply(s, step).calls[c].(phase := s.calls[c].phase) == s.calls[c]
  {
    if !MovesCall(step) {
      CallsUntouched(s, step);
    }
  }

  predicate MovesCall(step: Step) {
    step.Register? || step.Send? || step.Fail? || step.GiveUp? || step.Withdraw? || step.Receive?
  }

  lemma CallsUntouched(s: State, step: Step)
    requires Enabled(s, step) && !step.Number? && !MovesCall(step)
    ensures Apply(s, step).issued == s.issued && Apply(s, step).calls == s.calls
  {
  }

  /* ---- each step keeps the invariant ---- */

  lemma KeepNumber(s: State, c: CallId, call: Call)
    requires Core(s) && c !in s.calls && call.phase == Numbered
    requires KeysDistinct(s.(calls := s.calls[c := call]))
    ensures Core(s.(issued := s.issued + 1, calls := s.calls[c := call]))
  {
    var t := s.(issued := s.issued + 1, calls := s.calls[c := call]);
    assert forall d | d in s.calls :: t.calls[d] == s.calls[d];
    assert forall r, d :: Holds(t, r, d) <==> Holds(s, r, d);
    forall d | InFlight(t, d) ensures Accounted(t, d) {
      assert InFlight(s, d) && Accounted(s, d);
    }
  }

  lemma KeepRegister(s: State, c: CallId)
    requires Core(s) && At(s, c, Numbered)
    ensures Core(s.(pending := s.pending[s.calls[c].key := c], chans := s.chans[c := OPEN],
              calls := Moved(s, c, Registered)))
  {
    var t := s.(pending := s.pending[s.calls[c].key := c], chans := s.chans[c := OPEN],
      calls := Moved(s, c, Registered));
    RegisterKeepsTable(s, t, c);
    RegisterKeepsChannels(s, t, c);
    RegisterForgetsNone(s, t, c);
  }

  lemma RegisterKeepsTable(s: State, t: State, c: CallId)
    requires KeysDistinct(s) && ChannelsExist(s) && TableSound(s) && At(s, c, Numbered)
    requires t == s.(pending := s.pending[s.calls[c].key := c], chans := s.chans[c := OPEN],
               calls := Moved(s, c, Registered))
    ensures KeysDistinct(t) && ChannelsExist(t) && TableSound(t)
  {
  }

  lemma RegisterKeepsChannels(s: State, t: State, c: CallId)
    requires Core(s) && At(s, c, Numbered)
    requires t == s.(pending := s.pending[s.calls[c].key := c], chans := s.chans[c := OPEN],
               calls := Moved(s, c, Registered))
    ensures HoldersSound(t) && ChannelsSound(t) && RepliesSound(t)
  {
    assert forall r, d :: Holds(t, r, d) <==> Holds(s, r, d);
  }

  lemma RegisterForgetsNone(s: State, t: State, c: CallId)
    requires KeysDistinct(s) && NoneForgotten(s) && ChannelsExist(s) && At(s, c, Numbered)
    requires t == s.(pending := s.pending[s.calls[c].key := c], chans := s.chans[c := OPEN],
               calls := Moved(s, c, Registered))
    ensures NoneForgotten(t)
  {
    assert forall r, d :: Holds(t, r, d) <==> Holds(s, r, d);
    forall d | InFlight(t, d) ensures Accounted(t, d) {
      if d != c {
        assert InFlight(s, d) && Accounted(s, d);
      }
    }
  }

  lemma KeepMove(s: State, c: CallId, p: Phase)
    requires Core(s) && InFlight(s, c) && (p == Waiting || p == Cancelling)
    ensures Core(s.(calls := Moved(s, c, p)))
  {
    var t := s.(calls := Moved(s, c, p));
    MoveKeepsTable(s, t, c, p);
    MoveKeepsChannels(s, t, c, p);
    MoveForgetsNone(s, t, c, p);
  }

  lemma MoveKeepsTable(s: State, t: State, c: CallId, p: Phase)
    requires Core(s) && InFlight(s, c) && t == s.(calls := Moved(s, c, p)) && p != Numbered
    requires p == Waiting || p == Cancelling || s.chans[c] != OPEN
    ensures KeysDistinct(t) && ChannelsExist(t) && TableSound(t)
  {
  }

  lemma MoveKeepsChannels(s: State, t: State, c: CallId, p: Phase)
    requires Core(s) && InFlight(s, c) && t == s.(calls := Moved(s, c, p)) && (p.Done? ==> !p.outcome.Reply?)
    ensures HoldersSound(t) && ChannelsSound(t) && RepliesSound(t)
  {
    assert forall r, d :: Holds(t, r, d) <==> Holds(s, r, d);
    assert forall d | d in s.calls :: t.calls[d].key == s.calls[d].key;
  }

  lemma MoveForgetsNone(s: State, t: State, c: CallId, p: Phase)
    requires NoneForgotten(s) && c in s.calls && t == s.(calls := Moved(s, c, p)) && (InFlight(t, c) ==> InFlight(s, c))
    ensures NoneForgotten(t)
  {
    assert forall r, d :: Holds(t, r, d) <==> Holds(s, r, d);
    forall d | InFlight(t, d) ensures Accounted(t, d) {
      assert InFlight(s, d) && Accounted(s, d);
    }
  }

  /** Fail and Withdraw. */
  lemma KeepWithdraw(s: State, c: CallId)
    requires Core(s) && InFlight(s, c)
    ensures Core(s.(pending := s.pending - {s.calls[c].key}, calls := Moved(s, c, Done(Failed))))
  {
    var t := s.(pending := s.pending - {s.calls[c].key}, calls := Moved(s, c, Done(Failed)));
    WithdrawKeepsTable(s, t, c);
    WithdrawKeepsChannels(s, t, c);
    forall d | InFlight(t, d) ensures Accounted(t, d) {
      StillAccounted(s, t, c, d);
    }
  }

  lemma WithdrawKeepsTable(s: State, t: State, c: CallId)
    requires KeysDistinct(s) && ChannelsExist(s) && TableSound(s) && InFlight(s, c)
    requires t == s.(pending := s.pending - {s.calls[c].key}, calls := Moved(s, c, Done(Failed)))
    ensures KeysDistinct(t) && ChannelsExist(t) && TableSound(t)
  {
    assert forall k | k in t.pending :: k in s.pending && t.pending[k] == s.pending[k] && k != s.calls[c].key;
  }

  lemma WithdrawKeepsChannels(s: State, t: State, c: CallId)
    requires Core(s) && InFlight(s, c)
    requires t == s.(pending := s.pending - {s.calls[c].key}, calls := Moved(s, c, Done(Failed)))
    ensures HoldersSound(t) && ChannelsSound(t) && RepliesSound(t)
  {
    assert forall r, d :: Holds(t, r, d) <==> Holds(s, r, d);
    assert forall d | d in s.calls :: t.calls[d].key == s.calls[d].key;
  }

  lemma StillAccounted(s: State, t: State, c: CallId, d: CallId)
    requires KeysDistinct(s) && NoneForgotten(s) && InFlight(s, c) && InFlight(t, d)
    requires t == s.(pending := s.pending - {s.calls[c].key}, calls := Moved(s, c, Done(Failed)))
    ensures Accounted(t, d)
  {
    assert d != c && InFlight(s, d) && Accounted(s, d);
    assert s.calls[d].key != s.calls[c].key;
    if r :| Holds(s, r, d) {
      assert Holds(t, r, d);
    }
  }

  lemma KeepReply(s: State, c: CallId)
    requires Core(s) && At(s, c, Waiting) && c in s.chans && s.chans[c].buffer.Some?
    ensures Core(s.(chans := s.chans[c := s.chans[c].(buffer := None)],
                    calls := Moved(s, c, Done(Reply(s.chans[c].buffer.value)))))
  {
    var t := s.(chans := s.chans[c := s.chans[c].(buffer := None)],
                calls := Moved(s, c, Done(Reply(s.chans[c].buffer.value))));
    assert forall r, d :: Holds(t, r, d) <==> Holds(s, r, d);
    forall d | InFlight(t, d) ensures Accounted(t, d) {
      assert InFlight(s, d) && Accounted(s, d);
    }
  }

  lemma KeepClosed(s: State, c: CallId)
    requires Core(s) && At(s, c, Waiting) && c in s.chans && s.chans[c].closes > 0
    ensures Core(s.(calls := Moved(s, c, Done(ConnectionClosed))))
  {
    var t, p := s.(calls := Moved(s, c, Done(ConnectionClosed))), Done(ConnectionClosed);
    MoveKeepsTable(s, t, c, p);
    MoveKeepsChannels(s, t, c, p);
    MoveForgetsNone(s, t, c, p);
  }

  lemma KeepLog(s: State, id: string)
    requires Core(s)
    ensures Core(s.(log := s.log + [id]))
  {
    var t := s.(log := s.log + [id]);
    assert forall q, d :: Holds(t, q, d) <==> Holds(s, q, d);
    forall d | InFlight(t, d) ensures Accounted(t, d) {
      assert InFlight(s, d) && Accounted(s, d);
    }
  }

  /** A line that is in the log moves its channel from the table to the reader. */
  lemma KeepTake(s: State, r: ReaderId, id: string, line: nat)
    requires Core(s) && Reading(s, r, Scanning) && id in s.pending && line < |s.log| && s.log[line] == id
    ensures Core(s.(pending := s.pending - {id}, readers := s.readers[r := Holding(s.pending[id], Response(id, line))]))
  {
    var t := s.(pending := s.pending - {id}, readers := s.readers[r := Holding(s.pending[id], Response(id, line))]);
    assert forall q, d | q != r :: Holds(t, q, d) <==> Holds(s, q, d);
    assert Holds(t, r, s.pending[id]);
    forall d | InFlight(t, d) ensures Accounted(t, d) {
      assert InFlight(s, d) && Accounted(s, d);
      if q :| Holds(s, q, d) {
        assert Holds(t, q, d);
      }
    }
  }

  function Delivered(s: State, r: ReaderId, c: CallId, resp: Response): State
    requires c in s.chans
  {
    s.(chans := s.chans[c := s.chans[c].(buffer := Some(resp), sends := s.chans[c].sends + 1)],
      readers := s.readers[r := Scanning])
  }

  lemma KeepDeliver(s: State, r: ReaderId, c: CallId, resp: Response)
    requires Core(s) && Reading(s, r, Holding(c, resp)) && c in s.chans
    ensures Core(Delivered(s, r, c, resp))
  {
    DeliverKeepsSound(s, r, c, resp);
    DeliverForgetsNone(s, r, c, resp);
  }

  lemma DeliverKeepsSound(s: State, r: ReaderId, c: CallId, resp: Response)
    requires Core(s) && Reading(s, r, Holding(c, resp)) && c in s.chans
    ensures var t := Delivered(s, r, c, resp);
            KeysDistinct(t) && ChannelsExist(t) && TableSound(t) && HoldersSound(t) && ChannelsSound(t)
              && RepliesSound(t)
  {
    var t := Delivered(s, r, c, resp);
    assert Holds(s, r, c);
    assert forall q, d | q != r :: Holds(t, q, d) <==> Holds(s, q, d);
    assert forall d :: !Holds(t, r, d);
  }

  lemma DeliverForgetsNone(s: State, r: ReaderId, c: CallId, resp: Response)
    requires Core(s) && Reading(s, r, Holding(c, resp)) && c in s.chans
    ensures NoneForgotten(Delivered(s, r, c, resp))
  {
    var t := Delivered(s, r, c, resp);
    forall d | InFlight(t, d) ensures Accounted(t, d) {
      assert InFlight(s, d) && Accounted(s, d);
      if q :| Holds(s, q, d) {
        assert q != r ==> Holds(t, q, d);
      }
    }
  }

  /** A reader changing phase without touching a channel. */
  lemma KeepPhase(s: State, r: ReaderId, p: ReaderPhase, status: Status)
    requires Core(s) && (r in s.readers ==> !s.readers[r].Holding?) && !p.Holding?
    ensures Core(s.(readers := s.readers[r := p], status := status))
  {
    var t := s.(readers := s.readers[r := p], status := status);
    assert forall q, d :: Holds(t, q, d) <==> Holds(s, q, d);
    forall d | InFlight(t, d) ensures Accounted(t, d) {
      assert InFlight(s, d) && Accounted(s, d);
    }
  }

  lemma KeepDrain(s: State)
    requires Core(s)
    ensures Core(s.(pending := map[], chans := CloseAll(s.pending, s.chans)))
  {
    var t := s.(pending := map[], chans := CloseAll(s.pending, s.chans));
    assert forall q, d :: Holds(t, q, d) <==> Holds(s, q, d);
    forall c | c in s.chans && c in s.pending.Values ensures s.chans[c] == OPEN && t.chans[c] == Channel(None, 0, 1) {
      var k :| k in s.pending && s.pending[k] == c;
    }
    forall k | k in s.pending ensures forall r :: !Holds(s, r, s.pending[k]) {
      assert s.calls[s.pending[k]].key == k;
    }
    forall d | InFlight(t, d) ensures Accounted(t, d) {
      assert InFlight(s, d) && Accounted(s, d);
    }
  }

  /** Lock and status changes. */
  lemma KeepControl(s: State, status: Status, current: Option<ReaderId>, mu: Mutex)
    requires Core(s)
    ensures Core(s.(status := status, current := current, mu := mu))
  {
    var t := s.(status := status, current := current, mu := mu);
    assert forall q, d :: Holds(t, q, d) <==> Holds(s, q, d);
    forall d | InFlight(t, d) ensures Accounted(t, d) {
      assert InFlight(s, d) && Accounted(s, d);
    }
  }

  lemma StepKeepsInv(s: State, step: Step)
    requires Inv(s) && Enabled(s, step) && Apply(s, step).issued < WRAP
    ensures Inv(Apply(s, step))
  {
    NumbersKept(s, step);
    AllKeysUnique(Apply(s, step));
    if step.Number? || MovesCall(step) {
      CallStepKeepsCore(s, step);
    } else if step.ReadLine? || step.Deliver? || step.EndOfStream? || step.MarkStopped? || step.Drain? {
      ReaderStepKeepsCore(s, step);
    } else {
      ControlStepKeepsCore(s, step);
    }
  }

  lemma CallStepKeepsCore(s: State, step: Step)
    requires Core(s) && Enabled(s, step) && KeysDistinct(Apply(s, step))
    requires step.Number? || MovesCall(step)
    ensures Core(Apply(s, step))
  {
    match step
    case Number(c, kind, clientId) => NumberKeepsCore(s, c, kind, clientId);
    case Register(c) => KeepRegister(s, c);
    case Receive(c) => ReceiveKeepsCore(s, c);
    case _ => CallMoveKeepsCore(s, step);
  }

  lemma NumberKeepsCore(s: State, c: CallId, kind: Kind, clientId: string)
    requires Core(s) && Enabled(s, Number(c, kind, clientId)) && KeysDistinct(Apply(s, Number(c, kind, clientId)))
    ensures Core(Apply(s, Number(c, kind, clientId)))
  {
    KeepNumber(s, c, Call(kind, clientId, s.issued + 1, KeyOf(kind, (s.issued + 1) % WRAP), Numbered));
  }

  lemma ReceiveKeepsCore(s: State, c: CallId)
    requires Core(s) && Enabled(s, Receive(c))
    ensures Core(Apply(s, Receive(c)))
  {
    if s.chans[c].buffer.Some? {
      KeepReply(s, c);
    } else {
      KeepClosed(s, c);
    }
  }

  lemma CallMoveKeepsCore(s: State, step: Step)
    requires Core(s) && Enabled(s, step)
    requires step.Send? || step.Fail? || step.GiveUp? || step.Withdraw?
    ensures Core(Apply(s, step))
  {
    match step
    case Send(c) => KeepMove(s, c, Waiting);
    case Fail(c) => KeepWithdraw(s, c);
    case GiveUp(c) => KeepMove(s, c, Cancelling);
    case Withdraw(c) => KeepWithdraw(s, c);
  }

  lemma ReaderStepKeepsCore(s: State, step: Step)
    requires Core(s) && Enabled(s, step)
    requires step.ReadLine? || step.Deliver? || step.EndOfStream? || step.MarkStopped? || step.Drain?
    ensures Core(Apply(s, step))
  {
    match step
    case ReadLine(r, id) => ReadLineKeepsCore(s, r, id);
    case Deliver(r) => DeliverKeepsCore(s, r);
    case _ => ReaderEndKeepsCore(s, step);
  }

  lemma DeliverKeepsCore(s: State, r: ReaderId)
    requires Core(s) && Enabled(s, Deliver(r))
    ensures Core(Apply(s, Deliver(r)))
  {
    KeepDeliver(s, r, s.readers[r].ch, s.readers[r].resp);
  }

  lemma ReaderEndKeepsCore(s: State, step: Step)
    requires Core(s) && Enabled(s, step) && (step.EndOfStream? || step.MarkStopped? || step.Drain?)
    ensures Core(Apply(s, step))
  {
    match step
    case EndOfStream(r) => KeepPhase(s, r, Ending, s.status);
    case MarkStopped(r) => KeepPhase(s, r, Draining, Apply(s, step).status);
    case Drain(r) =>
      KeepDrain(s);
      KeepPhase(s.(pending := map[], chans := CloseAll(s.pending, s.chans)), r, Gone, s.status);
  }

  lemma ReadLineKeepsCore(s: State, r: ReaderId, id: string)
    requires Core(s) && Enabled(s, ReadLine(r, id))
    ensures Core(Apply(s, ReadLine(r, id)))
  {
    KeepLog(s, id);
    if id in s.pending {
      KeepTake(s.(log := s.log + [id]), r, id, |s.log|);
    }
  }

  lemma ControlStepKeepsCore(s: State, step: Step)
    requires Core(s) && Enabled(s, step)
    requires step.StartBegin? || step.Spawn? || step.SpawnFails? || step.StartEnd? || step.StopBegin?
               || step.StopReset? || step.StopDrain?
    ensures Core(Apply(s, step))
  {
    var t := Apply(s, step);
    match step
    case Spawn(r) =>
      KeepControl(s, RUNNING, Some(r), s.mu);
      KeepPhase(s.(status := RUNNING, current := Some(r)), r, Scanning, RUNNING);
    case StopDrain =>
      KeepDrain(s);
      KeepControl(s.(pending := map[], chans := CloseAll(s.pending, s.chans)), s.status, s.current, Free);
    case _ => KeepControl(s, t.status, t.current, t.mu);
  }

  lemma IssuedGrows(s: State, step: Step)
    requires Enabled(s, step)
    ensures s.issued <= Apply(s, step).issued
  {
  }

  lemma {:induction false} RunKeepsInv(s: State, steps: seq<Step>)
    requires Inv(s) && IsRun(s, steps) && Final(s, steps).issued < WRAP
    ensures Inv(Final(s, steps))
    decreases |steps|
  {
    if steps != [] {
      IssuedOfRun(Apply(s, steps[0]), steps[1..]);
      StepKeepsInv(s, steps[0]);
      RunKeepsInv(Apply(s, steps[0]), steps[1..]);
    }
  }

  lemma {:induction false} IssuedOfRun(s: State, steps: seq<Step>)
    requires IsRun(s, steps)
    ensures s.issued <= Final(s, steps).issued
    decreases |steps|
  {
    if steps != [] {
      IssuedGrows(s, steps[0]);
      IssuedOfRun(Apply(s, steps[0]), steps[1..]);
    }
  }

  lemma InitialInv()
    ensures Inv(INITIAL)
  {
    assert forall r, c :: !Holds(INITIAL, r, c);
  }

  /* ---- what holds in every run ---- */

  /** Each channel gets at most one send or one close. A reader about to send always finds its
      channel open and empty, so it neither blocks nor panics; a channel about to be closed is
      still open. */
  lemma ChannelDiscipline(steps: seq<Step>)
    requires IsRun(INITIAL, steps) && Final(INITIAL, steps).issued < WRAP
    ensures var s := Final(INITIAL, steps);
            && (forall c | c in s.chans :: s.chans[c].sends + s.chans[c].closes <= 1)
            && (forall r, c | Holds(s, r, c) :: c in s.chans && s.chans[c].buffer == None && s.chans[c].closes == 0)
            && (forall k | k in s.pending :: s.pending[k] in s.chans && s.chans[s.pending[k]].closes == 0)
  {
    InitialInv();
    RunKeepsInv(INITIAL, steps);
  }

  /** A call is only ever answered by a line carrying its own key. */
  lemma RepliesAreAuthentic(steps: seq<Step>, c: CallId, resp: Response)
    requires IsRun(INITIAL, steps) && Final(INITIAL, steps).issued < WRAP
    requires At(Final(INITIAL, steps), c, Done(Reply(resp)))
    ensures var s := Final(INITIAL, steps);
            resp.id == s.calls[c].key && resp.line < |s.log| && s.log[resp.line] == resp.id
  {
    InitialInv();
    RunKeepsInv(INITIAL, steps);
  }

  /** No line answers two calls. */
  lemma LineAnswersOneCall(steps: seq<Step>, c: CallId, x: Response, d: CallId, y: Response)
    requires IsRun(INITIAL, steps) && Final(INITIAL, steps).issued < WRAP
    requires At(Final(INITIAL, steps), c, Done(Reply(x))) && At(Final(INITIAL, steps), d, Done(Reply(y)))
    requires x.line == y.line
    ensures c == d
  {
    RepliesAreAuthentic(steps, c, x);
    RepliesAreAuthentic(steps, d, y);
    InitialInv();
    RunKeepsInv(INITIAL, steps);
    KeysUnique(Final(INITIAL, steps), c, d);
  }

  /** A waiting call is in the table, held by a reader, answered or closed; after a drain nothing is
      in the table any more. */
  lemma WaitingIsAccounted(steps: seq<Step>, c: CallId)
    requires IsRun(INITIAL, steps) && Final(INITIAL, steps).issued < WRAP
    requires At(Final(INITIAL, steps), c, Waiting)
    ensures Accounted(Final(INITIAL, steps), c)
  {
    InitialInv();
    RunKeepsInv(INITIAL, steps);
  }

  /** What the client is handed: the reply with its own id put back. */
  function Handed(call: Call): Option<Response> {
    match call.phase
    case Done(Reply(resp)) => Some(resp.(id := call.clientId))
    case _ => None
  }

  /** Clients that chose equal ids each get back their own id, from different lines. */
  lemma EqualClientIdsStayApart(steps: seq<Step>, c: CallId, d: CallId)
    requires IsRun(INITIAL, steps) && Final(INITIAL, steps).issued < WRAP
    requires var s := Final(INITIAL, steps);
             c in s.calls && d in s.calls && c != d && Handed(s.calls[c]).Some? && Handed(s.calls[d]).Some?
    ensures var s := Final(INITIAL, steps);
            var x, y := Handed(s.calls[c]).value, Handed(s.calls[d]).value;
            && x.id == s.calls[c].clientId && y.id == s.calls[d].clientId
            && x.line != y.line && x.line < |s.log| && y.line < |s.log|
            && s.log[x.line] == s.calls[c].key && s.log[y.line] == s.calls[d].key
  {
    var s := Final(INITIAL, steps);
    var x, y := s.calls[c].phase.outcome.resp, s.calls[d].phase.outcome.resp;
    RepliesAreAuthentic(steps, c, x);
    RepliesAreAuthentic(steps, d, y);
    if x.line == y.line {
      LineAnswersOneCall(steps, c, x, d, y);
    }
  }

  /* ---- the tool object ---- */

  /** The states the machine can be in. */
  ghost predicate Reachable(s: State) {
    exists steps :: IsRun(INITIAL, steps) && Final(INITIAL, steps) == s
  }

  lemma ReachableInv(s: State)
    requires Reachable(s) && s.issued < WRAP
    ensures Inv(s)
  {
    var steps :| IsRun(INITIAL, steps) && Final(INITIAL, steps) == s;
    InitialInv();
    RunKeepsInv(INITIAL, steps);
  }

  lemma {:induction false} RunSnoc(s: State, steps: seq<Step>, step: Step)
    requires IsRun(s, steps) && Enabled(Final(s, steps), step)
    ensures IsRun(s, steps + [step]) && Final(s, steps + [step]) == Apply(Final(s, steps), step)
    decreases |steps|
  {
    if steps == [] {
      assert [step][1..] == [];
    } else {
      assert (steps + [step])[1..] == steps[1..] + [step];
      RunSnoc(Apply(s, steps[0]), steps[1..], step);
    }
  }

  lemma ReachableStep(s: State, step: Step)
    requires Reachable(s) && Enabled(s, step)
    ensures Reachable(Apply(s, step))
  {
    var steps :| IsRun(INITIAL, steps) && Final(INITIAL, steps) == s;
    RunSnoc(INITIAL, steps, step);
    assert IsRun(INITIAL, steps + [step]);
  }

  /** No channel is in the table twice, and every one in it exists. */
  lemma TableIsInjective(s: State)
    requires Reachable(s) && s.issued < WRAP
    ensures forall k, l | k in s.pending && l in s.pending && s.pending[k] == s.pending[l] :: k == l
    ensures forall k | k in s.pending :: s.pending[k] in s.chans
    ensures PartlyDrained(s.pending, s.chans, s.pending, s.chans)
  {
    ReachableInv(s);
  }

  /** A new key is never in the table already. */
  lemma NewKeyIsFree(s: State, c: CallId)
    requires Reachable(s) && s.issued < WRAP && At(s, c, Numbered)
    ensures s.calls[c].key !in s.pending
  {
    ReachableInv(s);
  }

  /** A reader's channel is there to be sent to, and nothing has been sent to it or closed it yet. */
  lemma HeldChannelExists(s: State, r: ReaderId)
    requires Reachable(s) && s.issued < WRAP && r in s.readers && s.readers[r].Holding?
    ensures Enabled(s, Deliver(r)) && s.chans[s.readers[r].ch] == OPEN
  {
    ReachableInv(s);
    assert Holds(s, r, s.readers[r].ch);
  }

  /** The shared fields, with callers and readers kept as ghost state. Each method is one critical
      section, or the sequence of them that a single goroutine takes when nobody interferes; its
      contract names the machine steps it amounts to. */
  class ManagedTool {
    var status: Status
    var current: Option<ReaderId>
    var reqSeq: nat
    var pending: map<string, CallId>
    var chans: map<CallId, Channel>
    var linesRead: nat
    ghost var calls: map<CallId, Call>
    ghost var readers: map<ReaderId, ReaderPhase>
    ghost var log: seq<string>
    ghost var mu: Mutex
    ghost var issued: nat

    ghost function View(): State
      reads this
    {
      State(issued, pending, calls, chans, readers, log, status, current, mu)
    }

    ghost predicate Valid()
      reads this
    {
      reqSeq == issued % WRAP && issued < WRAP && linesRead == |log| && Reachable(View())
    }

    constructor ()
      ensures Valid() && View() == INITIAL
    {
      status, current, reqSeq, pending, chans, linesRead := REGISTERED, None, 0, map[], map[], 0;
      calls, readers, log, mu, issued := map[], map[], [], Free, 0;
      new;
      assert IsRun(INITIAL, []) && Final(INITIAL, []) == INITIAL;
    }

    /** Takes the next request number. The counter survives stops and restarts. */
    method NextNumber(ghost c: CallId, kind: Kind, ghost clientId: string) returns (key: string)
      requires Valid() && c !in calls && issued + 1 < WRAP
      modifies this
      ensures Valid() && View() == Apply(old(View()), Number(c, kind, clientId)) && key == calls[c].key
    {
      ReachableStep(View(), Number(c, kind, clientId));
      NotWrapped(issued);
      NotWrapped(issued + 1);
      reqSeq := (reqSeq + 1) % WRAP;
      key := KeyOf(kind, reqSeq);
      calls, issued := calls[c := Call(kind, clientId, issued + 1, key, Numbered)], issued + 1;
    }

    /** Registers a fresh channel under the key, which is never taken. */
    method RegisterCall(c: CallId, key: string)
      requires Valid() && At(View(), c, Numbered) && calls[c].key == key
      modifies this
      ensures Valid() && View() == Apply(old(View()), Register(c))
      ensures key !in old(pending)
    {
      ReachableStep(View(), Register(c));
      NewKeyIsFree(View(), c);
      pending, chans := pending[key := c], chans[c := OPEN];
      calls := calls[c := calls[c].(phase := Registered)];
    }

    /** The caller's cleanup when the request could not be written, or its context is done. */
    method AbandonCall(ghost c: CallId, key: string)
      requires Valid() && (At(View(), c, Registered) || At(View(), c, Cancelling)) && calls[c].key == key
      modifies this
      ensures Valid()
      ensures View() == Apply(old(View()), if old(calls[c].phase) == Registered then Fail(c) else Withdraw(c))
    {
      ReachableStep(View(), if calls[c].phase == Registered then Fail(c) else Withdraw(c));
      pending := pending - {key};
      calls := calls[c := calls[c].(phase := Done(Failed))];
    }

    /** The reader loop looks a line's id up and takes its channel out of the table. */
    method TakeChannel(ghost r: ReaderId, id: string) returns (ch: Option<CallId>, resp: Response)
      requires Valid() && Reading(View(), r, Scanning)
      modifies this
      ensures Valid() && View() == Apply(old(View()), ReadLine(r, id))
      ensures ch == if id in old(pending) then Some(old(pending)[id]) else None
      ensures resp == Response(id, old(linesRead))
    {
      ReachableStep(View(), ReadLine(r, id));
      resp, ch := Response(id, linesRead), None;
      linesRead, log := linesRead + 1, log + [id];
      if id in pending {
        ch := Some(pending[id]);
        pending := pending - {id};
        readers := readers[r := Holding(ch.value, resp)];
      }
    }

    /** The send, outside the lock; by `HeldChannelExists` it is always possible. */
    method DeliverTo(ghost r: ReaderId, ch: CallId, resp: Response)
      requires Valid() && Reading(View(), r, Holding(ch, resp)) && Enabled(View(), Deliver(r))
      modifies this`chans, this`readers
      ensures Valid() && View() == Apply(old(View()), Deliver(r))
    {
      ReachableStep(View(), Deliver(r));
      ghost var next := Apply(View(), Deliver(r));
      chans := chans[ch := chans[ch].(buffer := Some(resp), sends := chans[ch].sends + 1)];
      readers := readers[r := Scanning];
      assert View() == next;
    }

    /** Closes and removes every entry of the table. */
    method DrainPending()
      requires PartlyDrained(pending, chans, pending, chans)
      modifies this`pending, this`chans
      ensures pending == map[] && chans == CloseAll(old(pending), old(chans))
    {
      ghost var pending0, chans0 := pending, chans;
      while pending.Keys != {}
        invariant PartlyDrained(pending0, chans0, pending, chans)
        decreases pending.Keys
      {
        CloseEntry(pending0, chans0);
      }
      assert pending == map[];
      DrainDone(pending0, chans0, chans);
    }

    /** One iteration of the loop, whichever entry it comes to. */
    method CloseEntry(ghost pending0: map<string, CallId>, ghost chans0: map<CallId, Channel>)
      requires PartlyDrained(pending0, chans0, pending, chans) && pending.Keys != {}
      modifies this`pending, this`chans
      ensures PartlyDrained(pending0, chans0, pending, chans) && pending.Keys < old(pending.Keys)
    {
      var id :| id in pending.Keys;
      var ch := pending[id];
      DrainOne(pending0, chans0, pending, chans, id);
      chans := chans[ch := chans[ch].(closes := chans[ch].closes + 1)];
      pending := pending - {id};
    }

    /** What a reader does when its stream ends: only the current process's reader marks the tool
        stopped; whatever is still in the table is closed. */
    method EndReader(ghost r: ReaderId, proc: ReaderId)
      requires Valid() && Reading(View(), r, Ending) && mu.Free? && proc == r
      modifies this
      ensures Valid() && View() == Apply(Apply(old(View()), MarkStopped(r)), Drain(r))
      ensures old(current) != Some(r) ==> status == old(status)
    {
      NoteExit(r, proc);
      DrainReader(r);
    }

    method NoteExit(ghost r: ReaderId, proc: ReaderId)
      requires Valid() && Reading(View(), r, Ending) && mu.Free? && proc == r
      modifies this`status, this`readers
      ensures Valid() && View() == Apply(old(View()), MarkStopped(r)) && Reading(View(), r, Draining)
      ensures old(current) != Some(r) ==> status == old(status)
    {
      ReachableStep(View(), MarkStopped(r));
      if current == Some(proc) && status == RUNNING {
        status := STOPPED;
      }
      readers := readers[r := Draining];
    }

    method DrainReader(ghost r: ReaderId)
      requires Valid() && Reading(View(), r, Draining)
      modifies this`pending, this`chans, this`readers
      ensures Valid() && View() == Apply(old(View()), Drain(r))
    {
      ReachableStep(View(), Drain(r));
      TableIsInjective(View());
      DrainPending();
      readers := readers[r := Gone];
    }

    /** The last part of `Stop`, still under the tool's lock. */
    method FinishStop()
      requires Valid() && mu.HeldByStop? && status == REGISTERED
      modifies this
      ensures Valid() && View() == Apply(old(View()), StopDrain) && pending == map[]
    {
      ReachableStep(View(), StopDrain);
      TableIsInjective(View());
      DrainPending();
      mu := Free;
    }

    /** Takes the tool's lock; nobody else starts, stops or ends the tool until `FinishStop`. */
    method BeginStop()
      requires Valid() && mu.Free? && (status == RUNNING || status == STARTING)
      modifies this`status, this`mu
      ensures Valid() && View() == Apply(old(View()), StopBegin)
      ensures mu.HeldByStop? && status == STOPPING
    {
      ReachableStep(View(), StopBegin);
      status, mu := STOPPING, HeldByStop;
    }

    /** Forgets the process, whether or not it has exited. */
    method ResetProcess()
      requires Valid() && mu.HeldByStop? && status == STOPPING
      modifies this`status, this`current
      ensures Valid() && View() == Apply(old(View()), StopReset)
      ensures mu.HeldByStop? && status == REGISTERED
    {
      ReachableStep(View(), StopReset);
      current, status := None, REGISTERED;
    }

    /** Stops a running or starting tool; any other state is left alone. */
    method Stop()
      requires Valid() && mu.Free?
      modifies this
      ensures Valid()
      ensures if old(status) == RUNNING || old(status) == STARTING
              then View() == Apply(Apply(Apply(old(View()), StopBegin), StopReset), StopDrain) && pending == map[]
              else View() == old(View())
    {
      if status != RUNNING && status != STARTING {
        return;
      }
      BeginStop();
      ResetProcess();
      FinishStop();
    }

    /** Taking what the channel has, a reply or the news that it was closed; the client gets its own
        id back. */
    method AnswerClient(c: CallId, clientId: string) returns (r: Option<Response>)
      requires Valid() && Enabled(View(), Receive(c)) && calls[c].clientId == clientId
      modifies this
      ensures Valid() && View() == Apply(old(View()), Receive(c))
      ensures r == Handed(calls[c])
    {
      ReachableStep(View(), Receive(c));
      var buffer := chans[c].buffer;
      if buffer.Some? {
        chans := chans[c := chans[c].(buffer := None)];
        calls := calls[c := calls[c].(phase := Done(Reply(buffer.value)))];
        return Some(buffer.value.(id := clientId));
      }
      calls := calls[c := calls[c].(phase := Done(ConnectionClosed))];
      return None;
    }
  }

  /** Some entries are gone, and exactly their channels have been closed. */
  ghost predicate PartlyDrained(pending0: map<string, CallId>, chans0: map<CallId, Channel>,
                                pending: map<string, CallId>, chans: map<CallId, Channel>) {
    && (forall k, l | k in pending0 && l in pending0 && pending0[k] == pending0[l] :: k == l)
    && (forall k | k in pending0 :: pending0[k] in chans0)
    && (forall k | k in pending :: k in pending0 && pending[k] == pending0[k])
    && chans.Keys == chans0.Keys
    && (forall c | c in chans0 :: chans[c] ==
          if c in pending0.Values
            && c !in pending.Values then chans0[c].(closes := chans0[c].closes + 1) else chans0[c])
  }

  lemma DrainOne(pending0: map<string, CallId>, chans0: map<CallId, Channel>,
                 pending: map<string, CallId>, chans: map<CallId, Channel>, id: string)
    requires PartlyDrained(pending0, chans0, pending, chans) && id in pending
    ensures pending[id] in chans
    ensures PartlyDrained(pending0, chans0, pending - {id},
              chans[pending[id] := chans[pending[id]].(closes := chans[pending[id]].closes + 1)])
  {
    RemoveEntry(pending, id);
    assert pending0[id] in pending0.Values;
  }

  lemma DrainDone(pending0: map<string, CallId>, chans0: map<CallId, Channel>, chans: map<CallId, Channel>)
    requires PartlyDrained(pending0, chans0, map[], chans)
    ensures chans == CloseAll(pending0, chans0)
  {
  }

  lemma NotWrapped(n: nat)
    requires n < WRAP
    ensures n % WRAP == n
  {
  }

  lemma RemoveEntry(m: map<string, CallId>, id: string)
    requires id in m && forall k, l | k in m && l in m && m[k] == m[l] :: k == l
    ensures (m - {id}).Values == m.Values - {m[id]}
  {
    var rest := m - {id};
    forall c | c in m.Values && c != m[id] ensures c in rest.Values {
      var k :| k in m && m[k] == c;
      assert rest[k] == c;
    }
    forall c | c in rest.Values ensures c in m.Values && c != m[id] {
      var k :| k in rest && rest[k] == c;
      assert m[k] == c;
    }
  }
}
