/** The on-chain safety-session program: one `SafetySession` account per
    user, created by `start_check_in` or `trigger_panic` and advanced by five
    guarded instructions. Every instruction is a total function from the
    account slot and the runtime context to the new session or an error; a
    failed instruction leaves the account as it was (transactions are
    atomic). */
module Ledger {
  import opened Wrappers
  import opened Bytes

  const I64_MIN: int := -0x8000_0000_0000_0000
  const I64_MAX: int := 0x7FFF_FFFF_FFFF_FFFF
  type I64 = x: int | I64_MIN <= x <= I64_MAX

  /** The furthest a deadline may lie after the current clock, in seconds. */
  const MAX_HORIZON: int := 86400

  /** `SafetyStatus`, stored in the account as its `u8` discriminant. */
  datatype Status = Active | Confirmed | Expired | Panic | Closed {
    function Code(): Byte {
      match this
      case Active => 0
      case Confirmed => 1
      case Expired => 2
      case Panic => 3
      case Closed => 4
    }
  }

  /** `EventType`, stored in the account as its `u8` discriminant. */
  datatype EventType = CheckIn | PanicEvent {
    function Code(): Byte {
      match this
      case CheckIn => 0
      case PanicEvent => 1
    }
  }

  /** The status a stored code stands for; codes 5..255 name none. */
  function StatusOfCode(code: Byte): (r: Option<Status>)
    ensures r.Some? <==> code < 5
    ensures r.Some? ==> r.value.Code() == code
  {
    if code == 0 then Some(Active)
    else if code == 1 then Some(Confirmed)
    else if code == 2 then Some(Expired)
    else if code == 3 then Some(Panic)
    else if code == 4 then Some(Closed)
    else None
  }

  /** Every status is read back from its own code. */
  lemma StatusCodeRoundTrip(s: Status)
    ensures StatusOfCode(s.Code()) == Some(s)
  {
  }

  /** The `SafetySession` account. */
  datatype Session = Session(
    user: Bytes32,
    startTime: I64,
    deadline: I64,
    lastPing: I64,
    status: Byte,
    eventType: Byte,
    contextHash: Bytes32,
    bump: Byte)

  /** `AlivePingError`, plus the two failures the account constraints raise
      before the handler runs: `init` on an address that already holds an
      account, and a missing account where one is required. */
  datatype Error =
    | NotActive | DeadlineNotReached | Unauthorized | InvalidDeadline
    | DeadlineTooFar | SessionExists | InvalidState
    | AccountInUse | AccountNotInitialized

  /** What the runtime hands every instruction: the signing user, the bump of
      the session address and `Clock::get()?.unix_timestamp`. */
  datatype Context = Context(signer: Bytes32, bump: Byte, now: I64)

  datatype Instruction =
    | StartCheckIn(deadline: I64, contextHash: Bytes32)
    | TriggerPanic(contextHash: Bytes32)
    | CloseSession
    | ConfirmSafe
    | CancelCheckIn
    | ExpireCheckIn
    | UpdateLastPing

  // ---------------------------------------------------------------------------
  // Account constraints

  /** The `init` constraint: the session address must not hold an account. */
  function Init(acct: Option<Session>): Result<(), Error> {
    if acct.Some? then Err(AccountInUse) else Ok(())
  }

  /** The `mut, seeds, has_one = user` constraints of the five instructions
      that act on an existing session. */
  function Load(acct: Option<Session>, ctx: Context): (r: Result<Session, Error>)
    ensures r.Ok? <==> acct.Some? && acct.value.user == ctx.signer
    ensures r.Ok? ==> r.value == acct.value
  {
    if acct.None? then Err(AccountNotInitialized)
    else if acct.value.user != ctx.signer then Err(Unauthorized)
    else Ok(acct.value)
  }

  // ---------------------------------------------------------------------------
  // Instructions

  function StartCheckInIx(acct: Option<Session>, ctx: Context, deadline: I64, hash: Bytes32): (r: Result<Session, Error>)
    ensures acct.Some? ==> r == Err(AccountInUse)
    ensures acct.None? ==> (r.Ok? <==> ctx.now < deadline <= ctx.now + MAX_HORIZON)
    ensures acct.None? && deadline <= ctx.now ==> r == Err(InvalidDeadline)
    ensures acct.None? && ctx.now < deadline && ctx.now + MAX_HORIZON < deadline ==> r == Err(DeadlineTooFar)
    ensures r.Ok? ==> && r.value.status == Active.Code() && r.value.eventType == CheckIn.Code()
                      && r.value.startTime == ctx.now && r.value.lastPing == ctx.now
                      && r.value.deadline == deadline && r.value.contextHash == hash
                      && r.value.user == ctx.signer && r.value.bump == ctx.bump
  {
    var _ :- Init(acct);
    if !(deadline > ctx.now) then Err(InvalidDeadline)
    else if !(deadline <= ctx.now + MAX_HORIZON) then Err(DeadlineTooFar)
    else Ok(Session(ctx.signer, ctx.now, deadline, ctx.now, Active.Code(), CheckIn.Code(), hash, ctx.bump))
  }

  function TriggerPanicIx(acct: Option<Session>, ctx: Context, hash: Bytes32): (r: Result<Session, Error>)
    ensures r.Ok? <==> acct.None?
    ensures acct.Some? ==> r == Err(AccountInUse)
    ensures r.Ok? ==> && r.value.status == Panic.Code() && r.value.eventType == PanicEvent.Code()
                      && r.value.startTime == ctx.now && r.value.deadline == ctx.now
                      && r.value.lastPing == ctx.now && r.value.contextHash == hash
                      && r.value.user == ctx.signer && r.value.bump == ctx.bump
  {
    var _ :- Init(acct);
    Ok(Session(ctx.signer, ctx.now, ctx.now, ctx.now, Panic.Code(), PanicEvent.Code(), hash, ctx.bump))
  }

  function CloseSessionIx(acct: Option<Session>, ctx: Context): (r: Result<Session, Error>)
    ensures Load(acct, ctx).Ok? ==> (r.Ok? <==> acct.value.status < 4)
    ensures r.Ok? ==> acct.Some? && r.value == acct.value.(status := Closed.Code(), lastPing := ctx.now)
  {
    var s :- Load(acct, ctx);
    if !(s.status == Active.Code() || s.status == Confirmed.Code()
         || s.status == Expired.Code() || s.status == Panic.Code())
    then Err(NotActive)
    else Ok(s.(status := Closed.Code(), lastPing := ctx.now))
  }

  function ConfirmSafeIx(acct: Option<Session>, ctx: Context): (r: Result<Session, Error>)
    ensures Load(acct, ctx).Ok? ==> (r.Ok? <==> acct.value.status == Active.Code())
    ensures r.Ok? ==> acct.Some? && r.value == acct.value.(status := Confirmed.Code(), lastPing := ctx.now)
  {
    var s :- Load(acct, ctx);
    if s.status != Active.Code() then Err(NotActive)
    else Ok(s.(status := Confirmed.Code(), lastPing := ctx.now))
  }

  function CancelCheckInIx(acct: Option<Session>, ctx: Context): (r: Result<Session, Error>)
    ensures Load(acct, ctx).Ok? ==> (r.Ok? <==> acct.value.status == Active.Code())
    ensures r.Ok? ==> acct.Some? && r.value == acct.value.(status := Closed.Code(), lastPing := ctx.now)
  {
    var s :- Load(acct, ctx);
    if s.status != Active.Code() then Err(NotActive)
    else Ok(s.(status := Closed.Code(), lastPing := ctx.now))
  }

  function ExpireCheckInIx(acct: Option<Session>, ctx: Context): (r: Result<Session, Error>)
    ensures Load(acct, ctx).Ok? ==>
              (r.Ok? <==> acct.value.status == Active.Code() && ctx.now >= acct.value.deadline)
    ensures Load(acct, ctx).Ok? && acct.value.status == Active.Code() && ctx.now < acct.value.deadline
            ==> r == Err(DeadlineNotReached)
    ensures r.Ok? ==> acct.Some? && r.value == acct.value.(status := Expired.Code(), lastPing := ctx.now)
  {
    var s :- Load(acct, ctx);
    if s.status != Active.Code() then Err(NotActive)
    else if !(ctx.now >= s.deadline) then Err(DeadlineNotReached)
    else Ok(s.(status := Expired.Code(), lastPing := ctx.now))
  }

  function UpdateLastPingIx(acct: Option<Session>, ctx: Context): (r: Result<Session, Error>)
    ensures Load(acct, ctx).Ok? ==> (r.Ok? <==> acct.value.status == Active.Code())
    ensures r.Ok? ==> acct.Some? && r.value == acct.value.(lastPing := ctx.now)
  {
    var s :- Load(acct, ctx);
    if s.status != Active.Code() then Err(NotActive)
    else Ok(s.(lastPing := ctx.now))
  }

  /** Dispatch of one instruction. Only `start_check_in` and `trigger_panic`
      create a session, and only where none exists; every other instruction
      needs the signer's own session and changes nothing in it but the status
      and the last ping. Every success is stamped with the current time. */
  function Execute(acct: Option<Session>, ctx: Context, ix: Instruction): (r: Result<Session, Error>)
    ensures (ix.StartCheckIn? || ix.TriggerPanic?) && acct.Some? ==> r == Err(AccountInUse)
    ensures !(ix.StartCheckIn? || ix.TriggerPanic?) && Load(acct, ctx).Err? ==> r == Err(Load(acct, ctx).error)
    ensures r.Ok? ==> (acct.None? <==> ix.StartCheckIn? || ix.TriggerPanic?)
    ensures r.Ok? ==> r.value.lastPing == ctx.now && r.value.user == ctx.signer
    ensures r.Ok? && acct.Some? ==> r.value == acct.value.(status := r.value.status, lastPing := ctx.now)
  {
    match ix
    case StartCheckIn(deadline, hash) => StartCheckInIx(acct, ctx, deadline, hash)
    case TriggerPanic(hash) => TriggerPanicIx(acct, ctx, hash)
    case CloseSession => CloseSessionIx(acct, ctx)
    case ConfirmSafe => ConfirmSafeIx(acct, ctx)
    case CancelCheckIn => CancelCheckInIx(acct, ctx)
    case ExpireCheckIn => ExpireCheckInIx(acct, ctx)
    case UpdateLastPing => UpdateLastPingIx(acct, ctx)
  }

  /** The account after a transaction carrying one instruction: the new
      session on success, the old account on failure. */
  function Apply(acct: Option<Session>, ctx: Context, ix: Instruction): Option<Session> {
    match Execute(acct, ctx, ix)
    case Ok(s) => Some(s)
    case Err(_) => acct
  }

  /** The account after a sequence of transactions. */
  function Run(acct: Option<Session>, txs: seq<(Context, Instruction)>): Option<Session>
    decreases |txs|
  {
    if txs == [] then acct else Run(Apply(acct, txs[0].0, txs[0].1), txs[1..])
  }

  // ---------------------------------------------------------------------------
  // Properties of the lifecycle

  /** The instructions that act on an existing session. */
  predicate RequiresActive(ix: Instruction) {
    ix.ConfirmSafe? || ix.CancelCheckIn? || ix.ExpireCheckIn? || ix.UpdateLastPing?
  }

  /** `confirm_safe`, `cancel_check_in`, `expire_check_in` and
      `update_last_ping` reject every status but Active with NotActive and
      leave the account unchanged. */
  lemma GuardedRejectNonActive(s: Session, ctx: Context, ix: Instruction)
    requires RequiresActive(ix) && s.user == ctx.signer && s.status != Active.Code()
    ensures Execute(Some(s), ctx, ix) == Err(NotActive)
    ensures Apply(Some(s), ctx, ix) == Some(s)
  {
  }

  /** The status changes the program permits. */
  predicate Transition(from: Byte, to: Byte) {
    || (from == Active.Code() && to in {Active.Code(), Confirmed.Code(), Expired.Code(), Closed.Code()})
    || (from in {Confirmed.Code(), Expired.Code(), Panic.Code()} && to == Closed.Code())
  }

  /** Every successful instruction on an existing session follows the
      lifecycle Active -> {Active, Confirmed, Expired, Closed} and
      {Confirmed, Expired, Panic} -> Closed; nothing leaves Closed. */
  lemma ExecuteFollowsLifecycle(s: Session, ctx: Context, ix: Instruction)
    requires Execute(Some(s), ctx, ix).Ok?
    ensures Transition(s.status, Execute(Some(s), ctx, ix).value.status)
    ensures s.status != Closed.Code()
  {
  }

  /** Closed is final: every instruction on a closed session fails, so the
      account stays exactly as it is. */
  lemma ClosedIsFinal(s: Session, ctx: Context, ix: Instruction)
    requires s.status == Closed.Code()
    ensures Execute(Some(s), ctx, ix).Err?
    ensures Apply(Some(s), ctx, ix) == Some(s)
  {
  }

  /** `close_session` is accepted from Active, Confirmed, Expired and Panic
      and always yields Closed. */
  lemma CloseFromAnyOpenStatus(s: Session, ctx: Context)
    requires s.user == ctx.signer && StatusOfCode(s.status).Some?
    ensures CloseSessionIx(Some(s), ctx).Ok? <==> s.status != Closed.Code()
    ensures CloseSessionIx(Some(s), ctx).Ok? ==> CloseSessionIx(Some(s), ctx).value.status == Closed.Code()
  {
  }

  /** The declared errors SessionExists and InvalidState are never raised. */
  lemma UnusedErrors(acct: Option<Session>, ctx: Context, ix: Instruction)
    ensures Execute(acct, ctx, ix) != Err(SessionExists)
    ensures Execute(acct, ctx, ix) != Err(InvalidState)
  {
  }

  /** Once a session account exists it is never removed (`close_session`
      only marks it Closed), so `start_check_in` and `trigger_panic`, which
      `init` the same address, fail in every later transaction. */
  lemma {:induction false} CreatedOnce(acct: Option<Session>, txs: seq<(Context, Instruction)>,
                                       ctx: Context, deadline: I64, hash: Bytes32)
    requires acct.Some?
    ensures Run(acct, txs).Some?
    ensures StartCheckInIx(Run(acct, txs), ctx, deadline, hash) == Err(AccountInUse)
    ensures TriggerPanicIx(Run(acct, txs), ctx, hash) == Err(AccountInUse)
    decreases |txs|
  {
    if txs != [] {
      CreatedOnce(Apply(acct, txs[0].0, txs[0].1), txs[1..], ctx, deadline, hash);
    }
  }

  /** The shape every session the program writes keeps: the start never
      follows the last ping, a check-in's deadline lies within the horizon,
      a panic session's deadline is its start and it is only ever Panic or
      Closed, and an expired session was expired at or after its deadline. */
  predicate Valid(s: Session) {
    && s.startTime <= s.lastPing
    && s.status < 5
    && (s.eventType == CheckIn.Code() || s.eventType == PanicEvent.Code())
    && (s.eventType == CheckIn.Code() ==>
          s.startTime < s.deadline <= s.startTime + MAX_HORIZON && s.status != Panic.Code())
    && (s.eventType == PanicEvent.Code() ==>
          s.deadline == s.startTime && (s.status == Panic.Code() || s.status == Closed.Code()))
    && (s.status == Expired.Code() ==> s.deadline <= s.lastPing)
  }

  /** Every instruction keeps the account valid, given a clock that does not
      run backwards past the last ping. */
  lemma ExecutePreservesValid(acct: Option<Session>, ctx: Context, ix: Instruction)
    requires acct.Some? ==> Valid(acct.value) && acct.value.lastPing <= ctx.now
    ensures Apply(acct, ctx, ix).Some? ==> Valid(Apply(acct, ctx, ix).value)
  {
  }

  // ---------------------------------------------------------------------------
  // Account layout

  /** `SafetySession::LEN`: the serialized size of the fields. */
  const LEN: nat := 32 + 8 + 8 + 8 + 1 + 1 + 32 + 1

  /** The space `init` allocates: an 8-byte account discriminator and the fields. */
  const SPACE: nat := 8 + LEN

  const TWO_63: nat := 0x8000_0000_0000_0000
  const TWO_64: nat := 0x1_0000_0000_0000_0000

  function Pow256(n: nat): (p: nat)
    ensures p > 0
  {
    if n == 0 then 1 else 256 * Pow256(n - 1)
  }

  /** `v` as `n` little-endian bytes (the low `n` bytes when it is larger). */
  function LeBytes(v: nat, n: nat): (b: seq<Byte>)
    ensures |b| == n
  {
    if n == 0 then [] else [v % 256] + LeBytes(v / 256, n - 1)
  }

  /** The value of little-endian bytes. */
  function LeValue(b: seq<Byte>): (v: nat)
    ensures v < Pow256(|b|)
  {
    if b == [] then 0 else b[0] + 256 * LeValue(b[1..])
  }

  lemma {:induction false} LeValueOfLeBytes(v: nat, n: nat)
    requires v < Pow256(n)
    ensures LeValue(LeBytes(v, n)) == v
  {
    if n > 0 {
      LeValueOfLeBytes(v / 256, n - 1);
      assert LeBytes(v, n)[1..] == LeBytes(v / 256, n - 1);
    }
  }

  lemma {:induction false} LeBytesOfLeValue(b: seq<Byte>)
    ensures LeBytes(LeValue(b), |b|) == b
  {
    if b != [] {
      LeBytesOfLeValue(b[1..]);
      assert (b[0] + 256 * LeValue(b[1..])) / 256 == LeValue(b[1..]);
    }
  }

  lemma Pow256Of8()
    ensures Pow256(8) == TWO_64
  {
    assert Pow256(4) == 0x1_0000_0000;
  }

  /** An `i64` as Borsh writes it: two's complement, little-endian. */
  function EncodeI64(x: I64): (b: seq<Byte>)
    ensures |b| == 8
  {
    LeBytes(if x >= 0 then x else x + TWO_64, 8)
  }

  function DecodeI64(b: seq<Byte>): I64
    requires |b| == 8
  {
    Pow256Of8();
    var u := LeValue(b);
    if u < TWO_63 then u else u - TWO_64
  }

  lemma I64RoundTrip(x: I64)
    ensures DecodeI64(EncodeI64(x)) == x
  {
    Pow256Of8();
    LeValueOfLeBytes(if x >= 0 then x else x + TWO_64, 8);
  }

  lemma I64BytesRoundTrip(b: seq<Byte>)
    requires |b| == 8
    ensures EncodeI64(DecodeI64(b)) == b
  {
    Pow256Of8();
    LeBytesOfLeValue(b);
  }

  /** The account fields in declaration order, as Borsh serializes them. */
  function Encode(s: Session): (b: seq<Byte>)
    ensures |b| == LEN
  {
    s.user + EncodeI64(s.startTime) + EncodeI64(s.deadline) + EncodeI64(s.lastPing)
      + [s.status, s.eventType] + s.contextHash + [s.bump]
  }

  /** The session whose fields lie in the first `LEN` bytes. */
  function Fields(b: seq<Byte>): Session
    requires |b| == LEN
  {
    Session(b[0..32], DecodeI64(b[32..40]), DecodeI64(b[40..48]), DecodeI64(b[48..56]), b[56], b[57], b[58..90], b[90])
  }

  /** Reading the fields back; data shorter than `LEN` holds no session,
      and longer data is read from its first `LEN` bytes, which re-encoding
      the session gives back exactly. */
  function Decode(b: seq<Byte>): (r: Option<Session>)
    ensures r.Some? <==> |b| >= LEN
    ensures r.Some? ==> Encode(r.value) == b[..LEN]
  {
    if |b| < LEN then None
    else
      EncodeFields(b[..LEN]);
      Some(Fields(b[..LEN]))
  }

  /** The layout of `LEN` bytes holds every session exactly. */
  lemma DecodeEncode(s: Session)
    ensures Decode(Encode(s)) == Some(s)
  {
    var b := Encode(s);
    assert b[..LEN] == b;
    assert b[0..32] == s.user;
    assert b[32..40] == EncodeI64(s.startTime);
    assert b[40..48] == EncodeI64(s.deadline);
    assert b[48..56] == EncodeI64(s.lastPing);
    assert b[58..90] == s.contextHash;
    I64RoundTrip(s.startTime);
    I64RoundTrip(s.deadline);
    I64RoundTrip(s.lastPing);
  }

  /** Every `LEN`-byte record is the encoding of the session its fields hold. */
  lemma EncodeFields(b: seq<Byte>)
    requires |b| == LEN
    ensures Encode(Fields(b)) == b
  {
    var s := Fields(b);
    I64BytesRoundTrip(b[32..40]);
    I64BytesRoundTrip(b[40..48]);
    I64BytesRoundTrip(b[48..56]);
    var pieces := b[0..32] + b[32..40] + b[40..48] + b[48..56] + [b[56], b[57]] + b[58..90] + [b[90]];
    assert Encode(s) == pieces;
    Reassembled(b);
  }

  /** A record is the concatenation of its fields' byte ranges. */
  lemma Reassembled(b: seq<Byte>)
    requires |b| == LEN
    ensures b == b[0..32] + b[32..40] + b[40..48] + b[48..56] + [b[56], b[57]] + b[58..90] + [b[90]]
  {
  }
}
