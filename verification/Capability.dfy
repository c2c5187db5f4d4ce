/** The single-use capability ledger, its file, and runs in which any write may fail before or after
    it replaces the file (native-host/src/lease/state_machine.rs, lease/store.rs, transaction.rs). */
module Capability {
  import opened Base

  const NONCE_WINDOW: nat := 128
  const MAX_LIFETIME_MS: nat := 60_000

  datatype CapabilityOperation = Inject | RecoverProfile

  /** A nonce of 0 stands for the all-zero nonce. */
  datatype Payload = Payload(groupId: Uuid, operation: CapabilityOperation, expiry: nat, sequence: nat, nonce: nat)

  datatype Ledger = Ledger(groupId: Uuid, issued: nat, consumed: nat, nonces: seq<nat>, pending: Option<Payload>)

  datatype Token = Token(groupId: Uuid, operation: CapabilityOperation, sequence: nat)

  function NewLedger(groupId: Uuid): Result<Ledger> {
    if groupId == NIL then Err(Error.Capability) else Ok(Ledger(groupId, 0, 0, [], None))
  }

  predicate ShapeOk(p: Payload) { p.groupId != NIL && p.sequence != 0 && p.nonce != 0 }

  /** The payload a reservation draws. */
  function Draw(l: Ledger, operation: CapabilityOperation, now: nat, lifetime: nat, nonce: nat): Result<Payload> {
    if l.pending.Some? || l.issued >= U64_MAX then Err(Error.Capability)
    else if lifetime == 0 || lifetime > MAX_LIFETIME_MS || now + lifetime > U64_MAX then Err(Error.Capability)
    else
      var p := Payload(l.groupId, operation, now + lifetime, l.issued + 1, nonce);
      if ShapeOk(p) then Ok(p) else Err(Error.Capability)
  }

  function Reserved(l: Ledger, p: Payload): Ledger { l.(issued := p.sequence, pending := Some(p)) }

  function Cancelled(l: Ledger): Ledger { l.(pending := None) }

  /** The last n elements, or all of them. */
  function LastN(s: seq<nat>, n: nat): seq<nat> { if |s| <= n then s else s[|s| - n..] }

  function Consumed(l: Ledger, p: Payload): Ledger {
    l.(consumed := p.sequence, pending := None, nonces := LastN(l.nonces + [p.nonce], NONCE_WINDOW))
  }

  /** The checks of verify_and_consume in their order; `signed` is the verifier's answer. */
  predicate Verifies(l: Ledger, p: Payload, signed: bool, operation: CapabilityOperation, now: nat) {
    && ShapeOk(p) && signed
    && p.groupId == l.groupId && p.operation == operation
    && now <= p.expiry && p.expiry - now <= MAX_LIFETIME_MS
    && p.sequence > l.consumed && p.nonce !in l.nonces
    && l.pending == Some(p)
  }

  /** One authorisation: the draw, the platform's answer, which is no payload when the user or the
      platform refuses to sign, and the fates of the reservation's write and of the write after it, a
      cancellation or a consumption. */
  datatype Attempt = Attempt(now: nat, nonce: nat, reserved: WriteOutcome, answer: Option<Payload>, signed: bool,
                             later: nat, written: WriteOutcome)

  /** The attempt ends with a token. */
  predicate Grants(l: Ledger, a: Attempt) {
    var drawn := Draw(l, Inject, a.now, MAX_LIFETIME_MS, a.nonce);
    && drawn.Ok? && a.reserved.Replaced? && a.answer.Some? && a.written.Replaced?
    && Verifies(Reserved(l, drawn.value), a.answer.value, a.signed, Inject, a.later)
  }

  // ---------------------------------------------------------------------------------------------
  // The ledger in place
  // ---------------------------------------------------------------------------------------------

  /** What a method makes of memory and file is what the step of the runs makes of them. */
  ghost predicate Follows(memory: Ledger, file: Ledger, e: Event, memory': Ledger, file': Ledger) {
    forall groupId: Uuid, w: World :: w.memory == Some(memory) && w.file == Some(file) ==>
      Step(groupId, w, e).memory == Some(memory') && Step(groupId, w, e).file == Some(file')
  }

  class CapabilityLedger {
    var memory: Ledger
    var file: Ledger

    constructor (l: Ledger)
      ensures memory == l && file == l
    {
      memory, file := l, l;
    }

    method Persist(next: Ledger, fault: WriteOutcome) returns (ok: bool)
      modifies this`file
      ensures ok <==> fault.Replaced?
      ensures file == if fault.FailsBefore? then old(file) else next
    {
      if fault.FailsBefore? { return false; }
      file := next;
      return fault.Replaced?;
    }

    method Reserve(operation: CapabilityOperation, now: nat, lifetime: nat, nonce: nat, fault: WriteOutcome)
      returns (r: Result<Payload>)
      modifies this
      ensures Draw(old(memory), operation, now, lifetime, nonce).Ok? <==>
                && old(memory).pending.None? && old(memory).issued < 0xFFFF_FFFF_FFFF_FFFF
                && 0 < lifetime <= 60_000 && now + lifetime <= 0xFFFF_FFFF_FFFF_FFFF
                && old(memory).groupId != 0 && nonce != 0
      ensures var drawn := Draw(old(memory), operation, now, lifetime, nonce);
              if drawn.Err? then r == drawn && memory == old(memory) && file == old(file)
              else
                && (r.Ok? <==> fault.Replaced?) && (r.Ok? ==> r == drawn)
                && drawn.value == Payload(old(memory).groupId, operation, now + lifetime, old(memory).issued + 1, nonce)
                && Reserved(old(memory), drawn.value) ==
                     old(memory).(issued := old(memory).issued + 1, pending := Some(drawn.value))
                && memory == (if r.Ok? then Reserved(old(memory), drawn.value) else old(memory))
                && file == (if fault.FailsBefore? then old(file) else Reserved(old(memory), drawn.value))
      ensures Follows(old(memory), old(file), DoReserve(operation, now, lifetime, nonce, fault), memory, file)
    {
      if memory.pending.Some? { return Err(Error.Capability); }
      if memory.issued >= U64_MAX { return Err(Error.Capability); }
      var sequence := memory.issued + 1;
      if lifetime == 0 || lifetime > MAX_LIFETIME_MS || now + lifetime > U64_MAX { return Err(Error.Capability); }
      var payload := Payload(memory.groupId, operation, now + lifetime, sequence, nonce);
      if !ShapeOk(payload) { return Err(Error.Capability); }
      var next := memory.(issued := sequence).(pending := Some(payload));
      var ok := Persist(next, fault);
      if !ok { return Err(Io); }
      memory := next;
      return Ok(payload);
    }

    method CancelPending(fault: WriteOutcome) returns (ok: bool)
      modifies this
      ensures ok <==> fault.Replaced?
      ensures memory == if ok then old(memory).(pending := None) else old(memory)
      ensures file == if fault.FailsBefore? then old(file) else old(memory).(pending := None)
      ensures Follows(old(memory), old(file), DoCancel(fault), memory, file)
    {
      var next := memory.(pending := None);
      ok := Persist(next, fault);
      if ok { memory := next; }
    }

    method VerifyAndConsume(p: Payload, signed: bool, operation: CapabilityOperation, now: nat, fault: WriteOutcome)
      returns (r: Result<Token>)
      modifies this
      ensures r.Ok? <==> Verifies(old(memory), p, signed, operation, now) && fault.Replaced?
      ensures r.Ok? ==>
                r.value == Token(p.groupId, p.operation, p.sequence) && file == memory == Consumed(old(memory), p)
      ensures r.Ok? ==>
                && memory.consumed == p.sequence && memory.issued == old(memory).issued && memory.pending.None?
                && (var all := old(memory).nonces + [p.nonce];
                    && |memory.nonces| == (if |all| < 128 then |all| else 128)
                    && forall i :: 0 <= i < |memory.nonces| ==> memory.nonces[i] == all[|all| - |memory.nonces| + i])
      ensures r.Err? ==> memory == old(memory)
      ensures r.Err? ==>
                file == if Verifies(old(memory), p, signed, operation, now)
                && fault.FailsAfter? then Consumed(old(memory), p) else old(file)
      ensures Follows(old(memory), old(file), DoConsume(p, signed, operation, now, fault), memory, file)
    {
      if !ShapeOk(p) || !signed { return Err(Error.Capability); }
      if p.groupId != memory.groupId { return Err(Error.Capability); }
      if p.operation != operation { return Err(Error.Capability); }
      if p.expiry < now { return Err(Error.Capability); }
      if p.expiry - now > MAX_LIFETIME_MS { return Err(Error.Capability); }
      if p.sequence <= memory.consumed { return Err(Error.Capability); }
      if p.nonce in memory.nonces { return Err(Error.Capability); }
      if memory.pending.None? || memory.pending.value != p { return Err(Error.Capability); }
      var nonces := memory.nonces + [p.nonce];
      ghost var all := nonces;
      while |nonces| > NONCE_WINDOW
        invariant |nonces| <= |all| && nonces == all[|all| - |nonces|..]
        invariant |nonces| >= NONCE_WINDOW || nonces == all
      {
        nonces := nonces[1..];
      }
      assert nonces == LastN(all, NONCE_WINDOW);
      var next := memory.(consumed := p.sequence, pending := None, nonces := nonces);
      var ok := Persist(next, fault);
      if !ok { return Err(Io); }
      memory := next;
      return Ok(Token(p.groupId, p.operation, p.sequence));
    }

    /** reserve, sign, verify; a refusal by the user cancels the reservation. */
    method AuthorizeInject(a: Attempt) returns (r: Result<Token>)
      modifies this
      ensures r.Ok? <==> Grants(old(memory), a)
      ensures r.Ok? ==>
                r.value.sequence == old(memory).issued + 1 && file == memory
                && memory.consumed == memory.issued == r.value.sequence
      ensures old(memory).pending.Some? ==> r.Err? && memory == old(memory) && file == old(file)
      ensures r.Err? && a.answer.Some? && memory != old(memory) ==> memory.pending.Some?
    {
      var reserved := Reserve(Inject, a.now, MAX_LIFETIME_MS, a.nonce, a.reserved);
      if reserved.Err? { return Err(reserved.error); }
      if a.answer.None? {
        var _ := CancelPending(a.written);
        return Err(Error.Capability);
      }
      r := VerifyAndConsume(a.answer.value, a.signed, Inject, a.later, a.written);
    }
  }

  // ---------------------------------------------------------------------------------------------
  // Runs
  // ---------------------------------------------------------------------------------------------

  /** The ledger in memory while the process runs, the file, and for the statements below: the
      sequences handed out by successful reservations, the sequences of the tokens, and the nonces
      consumed along the history of memory and of the file. */
  datatype World = World(
    memory: Option<Ledger>,
    file: Option<Ledger>,
    handed: seq<nat>,
    tokens: seq<nat>,
    memoryNonces: seq<nat>,
    fileNonces: seq<nat>)

  datatype Event =
    | Start(initFault: WriteOutcome, cancelFault: WriteOutcome)
    | DoReserve(operation: CapabilityOperation, now: nat, lifetime: nat, nonce: nat, fault: WriteOutcome)
    | DoCancel(fault: WriteOutcome)
    | DoConsume(payload: Payload, signed: bool, expected: CapabilityOperation, now: nat, fault: WriteOutcome)
    | Stop

  /** One write of `next`, whose consumed nonces are `nonces`. */
  function Persisted(w: World, next: Ledger, nonces: seq<nat>, fault: WriteOutcome): World {
    match fault
    case Replaced => w.(memory := Some(next), file := Some(next), memoryNonces := nonces, fileNonces := nonces)
    case FailsBefore => w
    case FailsAfter => w.(file := Some(next), fileNonces := nonces)
  }

  /** Loading or creating the ledger and dropping a stale reservation. */
  function Started(groupId: Uuid, w: World, initFault: WriteOutcome, cancelFault: WriteOutcome): World {
    if w.file.None? then
      var created := NewLedger(groupId);
      if created.Err? then w else Persisted(w, created.value, [], initFault)
    else if w.file.value.groupId != groupId then w
    else if w.file.value.pending.Some? then
      Persisted(w, Cancelled(w.file.value), w.fileNonces, cancelFault)
    else w.(memory := w.file, memoryNonces := w.fileNonces)
  }

  function Step(groupId: Uuid, w: World, e: Event): World {
    match e
    case Start(initFault, cancelFault) => if w.memory.Some? then w else Started(groupId, w, initFault, cancelFault)
    case Stop => w.(memory := None, memoryNonces := [])
    case DoReserve(operation, now, lifetime, nonce, fault) =>
      if w.memory.None? then w
      else
        var drawn := Draw(w.memory.value, operation, now, lifetime, nonce);
        if drawn.Err? then w
        else
          var n := Persisted(w, Reserved(w.memory.value, drawn.value), w.memoryNonces, fault);
          if fault.Replaced? then n.(handed := n.handed + [drawn.value.sequence]) else n
    case DoCancel(fault) =>
      if w.memory.None? then w else Persisted(w, Cancelled(w.memory.value), w.memoryNonces, fault)
    case DoConsume(p, signed, expected, now, fault) =>
      if w.memory.None? || !Verifies(w.memory.value, p, signed, expected, now) then w
      else
        var n := Persisted(w, Consumed(w.memory.value, p), w.memoryNonces + [p.nonce], fault);
        if fault.Replaced? then n.(tokens := n.tokens + [p.sequence]) else n
  }

  function Run(groupId: Uuid, events: seq<Event>): World {
    if events == [] then World(None, None, [], [], [], [])
    else Step(groupId, Run(groupId, events[..|events| - 1]), events[|events| - 1])
  }

  predicate Increasing(s: seq<nat>) { forall i, j :: 0 <= i < j < |s| ==> s[i] < s[j] }

  predicate Below(s: seq<nat>, n: nat) { forall i :: 0 <= i < |s| ==> s[i] <= n }

  predicate LedgerInv(l: Ledger, nonces: seq<nat>) {
    && l.consumed <= l.issued
    && l.nonces == LastN(nonces, NONCE_WINDOW)
    && (l.pending.Some? ==> l.pending.value.sequence == l.issued > l.consumed && l.pending.value.groupId == l.groupId)
  }

  predicate Inv(w: World) {
    && Increasing(w.handed) && Increasing(w.tokens)
    && (forall t :: t in w.tokens ==> t in w.handed)
    && (w.file.None? ==> w.handed == [] && w.tokens == [] && w.memory.None?)
    && (w.file.Some? ==>
          LedgerInv(w.file.value, w.fileNonces) && Below(w.handed, w.file.value.issued)
          && Below(w.tokens, w.file.value.consumed))
    && (w.memory.Some? ==>
          && LedgerInv(w.memory.value, w.memoryNonces)
          && Below(w.handed, w.memory.value.issued) && Below(w.tokens, w.memory.value.consumed)
          && (w.memory.value.pending.Some? ==> w.memory.value.issued in w.handed)
          && w.memory.value.issued <= w.file.value.issued && w.memory.value.consumed <= w.file.value.consumed)
  }

  lemma LastNSnoc(s: seq<nat>, x: nat, n: nat)
    requires n > 0
    ensures LastN(LastN(s, n) + [x], n) == LastN(s + [x], n)
  {
  }

  lemma ConsumedInv(l: Ledger, nonces: seq<nat>, p: Payload)
    requires LedgerInv(l, nonces) && l.pending == Some(p)
    ensures LedgerInv(Consumed(l, p), nonces + [p.nonce])
  {
    LastNSnoc(nonces, p.nonce, NONCE_WINDOW);
  }

  lemma StartInv(groupId: Uuid, w: World, initFault: WriteOutcome, cancelFault: WriteOutcome)
    requires Inv(w) && w.memory.None?
    ensures Inv(Started(groupId, w, initFault, cancelFault))
  {
  }

  lemma ReserveInv(groupId: Uuid, w: World, operation: CapabilityOperation, now: nat, lifetime: nat, nonce: nat,
                   fault: WriteOutcome)
    requires Inv(w)
    ensures Inv(Step(groupId, w, DoReserve(operation, now, lifetime, nonce, fault)))
  {
  }

  lemma ConsumeInv(groupId: Uuid, w: World, p: Payload, signed: bool, expected: CapabilityOperation, now: nat,
                   fault: WriteOutcome)
    requires Inv(w)
    ensures Inv(Step(groupId, w, DoConsume(p, signed, expected, now, fault)))
  {
    if w.memory.Some? && Verifies(w.memory.value, p, signed, expected, now) {
      ConsumedInv(w.memory.value, w.memoryNonces, p);
    }
  }

  lemma StepInv(groupId: Uuid, w: World, e: Event)
    requires Inv(w)
    ensures Inv(Step(groupId, w, e))
  {
    match e
    case Start(initFault, cancelFault) => if w.memory.None? { StartInv(groupId, w, initFault, cancelFault); }
    case DoReserve(operation, now, lifetime, nonce, fault) =>
      ReserveInv(groupId, w, operation, now, lifetime, nonce, fault);
    case DoCancel(fault) =>
    case DoConsume(p, signed, expected, now, fault) => ConsumeInv(groupId, w, p, signed, expected, now, fault);
    case Stop =>
  }

  lemma {:induction false} RunInv(groupId: Uuid, events: seq<Event>)
    ensures Inv(Run(groupId, events))
  {
    if events != [] {
      RunInv(groupId, events[..|events| - 1]);
      StepInv(groupId, Run(groupId, events[..|events| - 1]), events[|events| - 1]);
    }
  }

  /** Over every run with failed writes, crashes and restarts: no sequence is handed out twice, tokens
      have strictly increasing sequences that were handed out, the file's consumed sequence is at
      least that of every token, and the file's nonces are the last 128 consumed. */
  lemma SingleUse(groupId: Uuid, events: seq<Event>)
    ensures var w := Run(groupId, events);
            && Increasing(w.handed) && Increasing(w.tokens) && (forall t :: t in w.tokens ==> t in w.handed)
            && (w.handed != [] ==> w.file.Some?)
            && (w.file.Some? ==>
                  && w.file.value.consumed <= w.file.value.issued
                  && (forall i :: 0 <= i < |w.tokens| ==> w.tokens[i] <= w.file.value.consumed)
                  && (forall i :: 0 <= i < |w.handed| ==> w.handed[i] <= w.file.value.issued)
                  && |w.file.value.nonces| == (if |w.fileNonces| < 128 then |w.fileNonces| else 128)
                  && forall i :: 0 <= i < |w.file.value.nonces| ==>
                    w.file.value.nonces[i] == w.fileNonces[|w.fileNonces| - |w.file.value.nonces| + i])
  {
    RunInv(groupId, events);
  }

  /** At the step that yields a token, the file records exactly that consumption. */
  lemma TokenAfterRecord(groupId: Uuid, w: World, e: Event)
    requires Inv(w) && Step(groupId, w, e).tokens != w.tokens
    ensures var n := Step(groupId, w, e);
            && |n.tokens| == |w.tokens| + 1 && n.file.Some? && n.file == n.memory
            && n.file.value.consumed == n.tokens[|w.tokens|]
            && n.fileNonces == w.memoryNonces + [e.payload.nonce]
  {
  }

  /** The nonce is one of the last 128 consumed. */
  predicate Recent(nonces: seq<nat>, nonce: nat) {
    exists i :: 0 <= i < |nonces| && |nonces| - 128 <= i && nonces[i] == nonce
  }

  lemma WindowIff(nonces: seq<nat>, nonce: nat)
    ensures nonce in LastN(nonces, NONCE_WINDOW) <==> Recent(nonces, nonce)
  {
    var w := LastN(nonces, NONCE_WINDOW);
    var d := |nonces| - |w|;
    if nonce in w {
      var k :| 0 <= k < |w| && w[k] == nonce;
      assert nonces[d + k] == nonce;
    }
    if Recent(nonces, nonce) {
      var i :| 0 <= i < |nonces| && |nonces| - 128 <= i && nonces[i] == nonce;
      assert w[i - d] == nonce;
    }
  }

  /** Starting drops a reservation that a crash left behind and nothing else: the ledger comes up exactly
      when its file is readable for this group, or can be created, and the write it needs is durable; it
      then has nothing pending and all that the file recorded. */
  lemma StartedIff(groupId: Uuid, w: World, initFault: WriteOutcome, cancelFault: WriteOutcome)
    requires Inv(w) && w.memory.None?
    ensures var n := Started(groupId, w, initFault, cancelFault);
            && (n.memory.Some? <==>
                  if w.file.None? then groupId != 0 && initFault.Replaced?
                  else w.file.value.groupId == groupId && (w.file.value.pending.Some? ==> cancelFault.Replaced?))
            && (n.memory.Some? ==>
                  && n.file == n.memory
                  && n.memory.value ==
                       if w.file.None? then Ledger(groupId, 0, 0, [], None) else w.file.value.(pending := None))
            && n.handed == w.handed && n.tokens == w.tokens
  {
  }

  /** In every reachable ledger the sequence and group tests decide nothing: a capability is accepted
      exactly when it is the pending one, signed, for this operation, unexpired, within the lifetime
      bound and with a nonce outside the window. */
  lemma AcceptedIff(l: Ledger, nonces: seq<nat>, p: Payload, signed: bool, operation: CapabilityOperation, now: nat)
    requires LedgerInv(l, nonces)
    ensures Verifies(l, p, signed, operation, now) <==>
              && l.pending == Some(p) && signed && p.groupId != 0 && p.nonce != 0 && p.operation == operation
              && now <= p.expiry <= now + 60_000 && !Recent(nonces, p.nonce)
  {
    WindowIff(nonces, p.nonce);
  }

  /** A reservation that comes back signed and unchanged within its lifetime is accepted, once: after its
      consumption it never is again. */
  lemma ReservedIsAcceptedOnce(l: Ledger, nonces: seq<nat>, operation: CapabilityOperation, now: nat, lifetime: nat,
                               nonce: nat, later: nat, again: nat)
    requires LedgerInv(l, nonces) && Draw(l, operation, now, lifetime, nonce).Ok? && now <= later <= now + lifetime
    ensures var p := Draw(l, operation, now, lifetime, nonce).value;
            && (Verifies(Reserved(l, p), p, true, operation, later) <==> !Recent(nonces, nonce))
            && !Verifies(Consumed(Reserved(l, p), p), p, true, operation, again)
            && p.sequence > l.issued
  {
    WindowIff(nonces, nonce);
  }

  // ---------------------------------------------------------------------------------------------
  // An authorisation in a run
  // ---------------------------------------------------------------------------------------------

  /** The steps of one authorisation: nothing follows a reservation that failed. */
  function Attempted(groupId: Uuid, w: World, a: Attempt): World {
    var m := Step(groupId, w, DoReserve(Inject, a.now, MAX_LIFETIME_MS, a.nonce, a.reserved));
    if m.handed == w.handed then m
    else if a.answer.None? then Step(groupId, m, DoCancel(a.written))
    else Step(groupId, m, DoConsume(a.answer.value, a.signed, Inject, a.later, a.written))
  }

  lemma ReservedShape(groupId: Uuid, w: World, a: Attempt)
    ensures var m := Step(groupId, w, DoReserve(Inject, a.now, MAX_LIFETIME_MS, a.nonce, a.reserved));
            && m.tokens == w.tokens
            && (m.handed != w.handed <==>
                  w.memory.Some? && Draw(w.memory.value, Inject, a.now, MAX_LIFETIME_MS, a.nonce).Ok?
                  && a.reserved.Replaced?)
            && (m.handed != w.handed ==>
                  m.memory ==
                    Some(Reserved(w.memory.value,
                                  Draw(w.memory.value, Inject, a.now, MAX_LIFETIME_MS, a.nonce).value)))
            && (m.handed == w.handed ==> m.memory == w.memory)
  {
    var m := Step(groupId, w, DoReserve(Inject, a.now, MAX_LIFETIME_MS, a.nonce, a.reserved));
    if w.memory.Some? && Draw(w.memory.value, Inject, a.now, MAX_LIFETIME_MS, a.nonce).Ok? && a.reserved.Replaced? {
      assert |m.handed| == |w.handed| + 1;
    }
  }

  /** In every reachable ledger an attempt is granted exactly when nothing is pending, the payload comes
      back as drawn and signed within its lifetime with a nonce outside the window, and both writes are
      durable. */
  lemma GrantsIff(l: Ledger, nonces: seq<nat>, a: Attempt)
    requires LedgerInv(l, nonces)
    ensures Grants(l, a) <==>
              && a.answer.Some? && Draw(l, Inject, a.now, MAX_LIFETIME_MS, a.nonce) == Ok(a.answer.value)
              && a.signed && a.now <= a.later <= a.now + 60_000 && !Recent(nonces, a.nonce)
              && a.reserved.Replaced? && a.written.Replaced?
  {
    WindowIff(nonces, a.nonce);
    var drawn := Draw(l, Inject, a.now, MAX_LIFETIME_MS, a.nonce);
    if drawn.Ok? && a.answer == Some(drawn.value) {
      assert Reserved(l, drawn.value).pending == a.answer;
    }
  }

  /** An attempt in a run yields a token exactly when it is granted. The token is a new one, and the file
      records it. */
  lemma AttemptedIff(groupId: Uuid, w: World, a: Attempt)
    requires Inv(w)
    ensures var n := Attempted(groupId, w, a);
            && Inv(n) && (n.memory.Some? <==> w.memory.Some?)
            && (n.tokens != w.tokens <==> w.memory.Some? && Grants(w.memory.value, a))
            && (n.tokens != w.tokens ==>
                  && n.tokens == w.tokens + [w.memory.value.issued + 1] && w.memory.value.issued + 1 !in w.tokens
                  && n.file.Some? && n.file.value.consumed == w.memory.value.issued + 1)
  {
    AttemptedInv(groupId, w, a);
    ReservedShape(groupId, w, a);
    var n := Attempted(groupId, w, a);
    if w.memory.Some? && Grants(w.memory.value, a) {
      assert |n.tokens| == |w.tokens| + 1;
      assert n.tokens[|w.tokens|] == w.memory.value.issued + 1;
      assert forall i :: 0 <= i < |w.tokens| ==> w.tokens[i] <= w.memory.value.consumed;
    }
  }

  lemma AttemptedInv(groupId: Uuid, w: World, a: Attempt)
    requires Inv(w)
    ensures Inv(Attempted(groupId, w, a))
  {
    var e := DoReserve(Inject, a.now, MAX_LIFETIME_MS, a.nonce, a.reserved);
    var m := Step(groupId, w, e);
    StepInv(groupId, w, e);
    if m.handed != w.handed {
      if a.answer.None? {
        StepInv(groupId, m, DoCancel(a.written));
      } else {
        StepInv(groupId, m, DoConsume(a.answer.value, a.signed, Inject, a.later, a.written));
      }
    }
  }

  /** After an attempt without a token the next one can succeed only if nothing was reserved or the
      platform refused to sign and the cancellation was recorded. */
  lemma RefusalBlocks(groupId: Uuid, w: World, a: Attempt, again: Attempt)
    requires Inv(w) && w.memory.Some? && !Grants(w.memory.value, a)
    requires Draw(w.memory.value, Inject, a.now, MAX_LIFETIME_MS, a.nonce).Ok? && a.reserved.Replaced?
    ensures var n := Attempted(groupId, w, a);
            && n.memory.Some? && (a.answer.None? && a.written.Replaced? <==> n.memory.value.pending.None?)
            && (Grants(n.memory.value, again) ==> a.answer.None? && a.written.Replaced?)
  {
    ReservedShape(groupId, w, a);
  }
}
