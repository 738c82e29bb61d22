/**
 The sign-in store: setup, reset, enrolment and pending tokens, the
 administrator with an optional second factor, and sessions.

 Each method is one transaction, so concurrent requests are an arbitrary order
 of calls.  A presented secret is named by the row its hash selects; password
 hashes, factor secrets and scopes are opaque, and hashing a password hash into a
 binding is injective, so a binding is the password hash itself.
 */
module SignIn {

  const MINUTE := 60
  const SETUP_TTL := 30 * MINUTE
  const RESET_TTL := 30 * MINUTE
  const ENROL_TTL := 10 * MINUTE
  const PENDING_TTL := 5 * MINUTE
  const CODE_TRIES := 5
  const SESSION_TTL := 12 * 60 * MINUTE
  const PRUNE_AFTER := 24 * 60 * MINUTE
  const CODE_DIGITS := 6
  const CODE_PERIOD := 30

  // ----- one-time codes -----

  /** The step of a moment. */
  function StepOf(now: nat): nat { now / CODE_PERIOD }

  type Codes = (string, int) -> string

  /** What Go's unicode.IsSpace accepts. */
  predicate White(c: char) {
    var n := c as int;
    || 9 <= n <= 13 || n == 32 || n == 0x85 || n == 0xA0 || n == 0x1680 || 0x2000 <= n <= 0x200A
    || n == 0x2028 || n == 0x2029 || n == 0x202F || n == 0x205F || n == 0x3000
  }

  predicate AllWhite(s: string) { forall i | 0 <= i < |s| :: White(s[i]) }

  function TrimLeft(s: string): string { if s != [] && White(s[0]) then TrimLeft(s[1..]) else s }

  function TrimRight(s: string): string { if s != [] && White(s[|s| - 1]) then TrimRight(s[..|s| - 1]) else s }

  function NoSpaces(s: string): string {
    if s == [] then [] else (if s[0] == ' ' then [] else [s[0]]) + NoSpaces(s[1..])
  }

  /** The code in what was typed: white space around it and spaces inside it do not count. */
  function Typed(text: string): string { NoSpaces(TrimRight(TrimLeft(text))) }

  lemma {:induction false} NoSpacesSplits(a: string, b: string)
    ensures NoSpaces(a + b) == NoSpaces(a) + NoSpaces(b)
  {
    if a == [] {
      assert a + b == b;
    } else {
      assert (a + b)[1..] == a[1..] + b;
      NoSpacesSplits(a[1..], b);
    }
  }

  /** Trimming takes away white space at the two ends, and nothing else. */
  lemma {:induction false} TrimLeftMeans(s: string)
    ensures exists a :: s == a + TrimLeft(s) && AllWhite(a)
    ensures TrimLeft(s) == [] || !White(TrimLeft(s)[0])
  {
    if s != [] && White(s[0]) {
      TrimLeftMeans(s[1..]);
      var a :| s[1..] == a + TrimLeft(s[1..]) && AllWhite(a);
      assert s == ([s[0]] + a) + TrimLeft(s);
    } else {
      assert s == [] + TrimLeft(s);
    }
  }

  lemma {:induction false} TrimRightMeans(s: string)
    ensures exists b :: s == TrimRight(s) + b && AllWhite(b)
    ensures TrimRight(s) == [] || !White(TrimRight(s)[|TrimRight(s)| - 1])
  {
    var n := |s| - 1;
    if s != [] && White(s[n]) {
      TrimRightMeans(s[..n]);
      var b :| s[..n] == TrimRight(s[..n]) + b && AllWhite(b);
      assert s == TrimRight(s) + (b + [s[n]]);
    } else {
      assert s == TrimRight(s) + [];
    }
  }

  lemma {:induction false} NothingButSpaces(a: string)
    requires forall i | 0 <= i < |a| :: a[i] == ' '
    ensures NoSpaces(a) == []
  {
    if a != [] { NothingButSpaces(a[1..]); }
  }

  lemma EndsDoNotCount(a: string, rest: string, b: string)
    requires AllWhite(a) && AllWhite(b)
    requires forall i | 0 <= i < |a + (rest + b)| && White((a + (rest + b))[i]) :: (a + (rest + b))[i] == ' '
    ensures NoSpaces(a + (rest + b)) == NoSpaces(rest)
  {
    var text := a + (rest + b);
    assert forall i | 0 <= i < |a| :: a[i] == text[i];
    forall i | 0 <= i < |b| ensures b[i] == ' ' { assert b[i] == text[|a| + |rest| + i]; }
    NothingButSpaces(a);
    NothingButSpaces(b);
    NoSpacesSplits(a, rest + b);
    NoSpacesSplits(rest, b);
  }

  /** Of a code typed with spaces anywhere the spaces do not count. */
  lemma TypedWithSpaces(text: string)
    requires forall i | 0 <= i < |text| && White(text[i]) :: text[i] == ' '
    ensures Typed(text) == NoSpaces(text)
  {
    TrimLeftMeans(text);
    var a :| text == a + TrimLeft(text) && AllWhite(a);
    TrimRightMeans(TrimLeft(text));
    var b :| TrimLeft(text) == TrimRight(TrimLeft(text)) + b && AllWhite(b);
    EndsDoNotCount(a, TrimRight(TrimLeft(text)), b);
  }

  /** The earliest step of the window of `now` whose code is the typed one. */
  ghost predicate FirstMatch(code: Codes, secret: string, text: string, now: nat, step: int) {
    && StepOf(now) - 1 <= step <= StepOf(now) + 1 && code(secret, step) == Typed(text)
    && forall s | StepOf(now) - 1 <= s < step :: code(secret, s) != Typed(text)
  }

  /** The code belongs to the window, and the earliest step it belongs to is newer than the last one accepted. */
  ghost predicate Verifies(code: Codes, secret: string, text: string, now: nat, last: int) {
    |Typed(text)| == CODE_DIGITS && exists s :: FirstMatch(code, secret, text, now, s) && last < s
  }

  /** Accepts the current step and one either side, and only a step newer than the last accepted one. */
  method VerifyCode(code: Codes, secret: string, text: string, now: nat, lastStep: int)
    returns (step: int, ok: bool, reused: bool)
    ensures ok <==> Verifies(code, secret, text, now, lastStep)
    ensures !(ok && reused)
    ensures ok || reused ==>
      |Typed(text)| == CODE_DIGITS && FirstMatch(code, secret, text, now, step) && (ok <==> step > lastStep)
    ensures !ok && !reused ==> step == 0
    ensures !ok && !reused && |Typed(text)| == CODE_DIGITS ==>
      forall s | StepOf(now) - 1 <= s <= StepOf(now) + 1 :: code(secret, s) != Typed(text)
  {
    var typed := Typed(text);
    if |typed| != CODE_DIGITS { return 0, false, false; }
    var current := StepOf(now);
    var candidate: int := current - 1;
    while candidate <= current + 1
      invariant current - 1 <= candidate <= current + 2
      invariant forall s | current - 1 <= s < candidate :: code(secret, s) != typed
    {
      if code(secret, candidate) == typed {
        assert FirstMatch(code, secret, text, now, candidate);
        if candidate <= lastStep { return candidate, false, true; }
        return candidate, true, false;
      }
      candidate := candidate + 1;
    }
    return 0, false, false;
  }

  // ----- lockout -----

  /** The k-th lock in a row, in minutes: doubling from one, up to an hour. */
  function Lock(k: nat): nat
    requires k >= 1
  {
    if k > 6 then 60 else Power(k - 1)
  }

  function Power(n: nat): nat { if n == 0 then 1 else 2 * Power(n - 1) }

  /** The shift and the two caps of the code give that lock. */
  lemma ShiftIsLock(k: nat)
    requires k >= 1
    ensures (if k > 7 || Power(k - 1) > 60 then 60 else Power(k - 1)) == Lock(k)
  {
    assert Power(0) == 1 && Power(1) == 2 && Power(2) == 4 && Power(3) == 8;
    assert Power(4) == 16 && Power(5) == 32 && Power(6) == 64;
  }

  function LockSum(n: nat): nat { if n == 0 then 0 else LockSum(n - 1) + Lock(n) }

  lemma {:induction false} LockSumClosed(n: nat)
    ensures LockSum(n) == if n <= 6 then Power(n) - 1 else 63 + 60 * (n - 6)
  {
    if n > 0 { LockSumClosed(n - 1); }
    assert Power(6) == 64 by { assert Power(3) == 8; }
  }

  // ----- rows -----

  datatype Purpose = ForSetup | ForReset | ForEnrolment | ForCode

  datatype Kind = Setup | Reset | Upgrade

  /** What a token carries: a new password and factor to confirm, or a proved password step. */
  datatype Payload =
    | Empty
    | Enrolment(kind: Kind, password: string, binding: string, scope: string, secret: string)
    | PasswordStep(binding: string, scope: string)

  datatype Parent = NoParent | Parent(id: nat)

  datatype Token = Token(purpose: Purpose, expiresAt: int, consumed: bool, attempts: nat, max: nat,
                         parent: Parent, payload: Payload)

  datatype Factor = NoFactor | Factor(secret: string)

  datatype Admin = NoAdmin | Admin(password: string, factor: Factor, lastStep: int, failures: nat, lockedUntil: int)

  datatype Session = Session(scope: string, expiresAt: int)

  datatype Answer = Done | NotNow | BadToken | BadCode | UsedCode | Locked(seconds: int) | CredentialsChanged

  predicate Live(token: Token, purpose: Purpose, now: int) {
    token.purpose == purpose && !token.consumed && token.expiresAt > now
  }

  /** A fresh enrolment with all its attempts. */
  predicate Started(tokens: map<nat, Token>, id: nat, parent: Parent, payload: Payload, now: int) {
    id in tokens && tokens[id] == Token(ForEnrolment, now + ENROL_TTL, false, 0, CODE_TRIES, parent, payload)
  }

  function ResetsSpent(tokens: map<nat, Token>): map<nat, Token> {
    map id | id in tokens :: if tokens[id].purpose.ForReset? then tokens[id].(consumed := true) else tokens[id]
  }

  predicate Usable(tokens: map<nat, Token>, id: nat, purpose: Purpose, now: int) {
    && id in tokens && tokens[id].purpose == purpose && !tokens[id].consumed
    && tokens[id].expiresAt > now && tokens[id].attempts < tokens[id].max
  }

  /** Deleting rows clears the parent of the rows that pointed to them. */
  function Only(tokens: map<nat, Token>, kept: set<nat>): map<nat, Token> {
    map id | id in tokens && id in kept ::
      if tokens[id].parent.Parent? && tokens[id].parent.id !in kept then tokens[id].(parent := NoParent) else tokens[id]
  }

  function Unexpired(tokens: map<nat, Token>, now: int): set<nat> {
    set id | id in tokens && tokens[id].expiresAt >= now - PRUNE_AFTER
  }

  /** Opening a session drops the expired ones and those of another scope. */
  function Opened(sessions: map<nat, Session>, session: nat, scope: string, now: int): (r: map<nat, Session>)
    ensures session in r && forall h | h in r :: r[h].scope == scope && r[h].expiresAt > now
    ensures forall h | h in sessions && h != session && sessions[h].scope == scope && sessions[h].expiresAt > now ::
      h in r && r[h] == sessions[h]
  {
    (map h | h in sessions && sessions[h].expiresAt > now && sessions[h].scope == scope :: sessions[h])
      [session := Session(scope, now + SESSION_TTL)]
  }

  function Restrict(proved: map<nat, string>, keys: set<nat>): map<nat, string> {
    map h | h in proved && h in keys :: proved[h]
  }

  // ----- what holds at every moment -----

  predicate TokensSound(tokens: map<nat, Token>, nextId: nat) {
    && (forall id | id in tokens :: 0 < id < nextId && tokens[id].attempts <= tokens[id].max)
    && (forall id | id in tokens && tokens[id].parent.Parent? ::
          tokens[id].parent.id in tokens && tokens[id].parent.id < id)
  }

  /** Every session was opened by a step that proved the current password. */
  predicate SessionsSound(admin: Admin, sessions: map<nat, Session>, proved: map<nat, string>) {
    sessions.Keys == proved.Keys && forall h | h in proved :: admin.Admin? && proved[h] == admin.password
  }

  predicate Ascending(steps: seq<int>) {
    |steps| < 2 || (steps[|steps| - 2] < steps[|steps| - 1] && Ascending(steps[..|steps| - 1]))
  }

  /** The steps accepted for the present factor ascend, and the last is remembered. */
  predicate FactorSound(admin: Admin, accepted: seq<int>) {
    admin.Admin? && admin.factor.Factor? ==>
      accepted != [] && Ascending(accepted) && accepted[|accepted| - 1] == admin.lastStep
  }

  /** A streak of wrong codes has lasted at least as long as the locks it ran into. */
  predicate LockSound(admin: Admin, first: int, last: int, clock: int) {
    admin.Admin? && admin.failures > 0 ==>
      && first <= last <= clock && last - first >= MINUTE * LockSum((admin.failures - 1) / 5)
      && (admin.failures % 5 == 0 ==> admin.lockedUntil >= last + MINUTE * Lock(admin.failures / 5))
  }

  /** F wrong codes in a row take at least the first (F - 1) / 5 locks. */
  lemma WrongCodesTakeTime(admin: Admin, first: int, last: int, clock: int)
    requires LockSound(admin, first, last, clock) && admin.Admin? && admin.failures > 0
    ensures var k := (admin.failures - 1) / 5;
      last - first >= MINUTE * if k <= 6 then Power(k) - 1 else 63 + 60 * (k - 6)
  {
    LockSumClosed((admin.failures - 1) / 5);
  }

  /** Only the newest reset token is unspent. */
  predicate ResetsSound(tokens: map<nat, Token>, newest: nat) {
    forall id | id in tokens && tokens[id].purpose.ForReset? :: id <= newest && (!tokens[id].consumed ==> id == newest)
  }

  /** While an enrolment of an older reset could still be confirmed, the newest reset is in the
      table to refuse it: it outlives every enrolment begun before it. */
  predicate SupersessionSound(tokens: map<nat, Token>, newest: nat, clock: int) {
    forall id | id in tokens && tokens[id].purpose.ForEnrolment? ::
      && tokens[id].expiresAt <= clock + ENROL_TTL
      && (Outdated(tokens, id, newest) && tokens[id].expiresAt > clock ==>
            newest in tokens && tokens[newest].purpose.ForReset? && tokens[newest].expiresAt >= tokens[id].expiresAt)
  }

  /** The enrolment hangs on a reset token older than the newest one. */
  predicate Outdated(tokens: map<nat, Token>, id: nat, newest: nat)
    requires id in tokens
  {
    tokens[id].parent.Parent? && tokens[id].parent.id < newest
  }

  /** The table as a whole. */
  predicate TableSound(tokens: map<nat, Token>, nextId: nat, newest: nat, clock: int) {
    && TokensSound(tokens, nextId) && ResetsSound(tokens, newest) && SupersessionSound(tokens, newest, clock)
    && newest < nextId
  }

  lemma PruneKeeps(tokens: map<nat, Token>, nextId: nat, newest: nat, clock: int)
    requires TableSound(tokens, nextId, newest, clock)
    ensures TableSound(Only(tokens, Unexpired(tokens, clock)), nextId, newest, clock)
  {
  }

  lemma InsertKeeps(tokens: map<nat, Token>, nextId: nat, newest: nat, clock: int, token: Token)
    requires TableSound(tokens, nextId, newest, clock) && 0 < nextId && token.attempts == 0 && !token.purpose.ForReset?
    requires token.parent.Parent? ==> token.parent.id in tokens
    requires token.purpose.ForEnrolment? ==>
      token.expiresAt <= clock + ENROL_TTL && (token.parent.Parent? ==> token.parent.id >= newest)
    ensures TableSound(tokens[nextId := token], nextId + 1, newest, clock)
  {
  }

  lemma InsertResetKeeps(tokens: map<nat, Token>, nextId: nat, newest: nat, clock: int, token: Token)
    requires TableSound(tokens, nextId, newest, clock) && 0 < nextId && token.attempts == 0 && token.purpose.ForReset?
    requires token.parent.NoParent?
    requires token.expiresAt >= clock + ENROL_TTL
    requires forall id | id in tokens && tokens[id].purpose.ForReset? :: tokens[id].consumed
    ensures TableSound(tokens[nextId := token], nextId + 1, nextId, clock)
  {
  }

  /** What a confirmed reset leaves in the table: setup tokens and its own two rows. */
  function Untouched(tokens: map<nat, Token>, id: nat, parent: nat): set<nat> {
    set i | i in tokens && (tokens[i].purpose.ForSetup? || i == id || i == parent)
  }

  predicate OthersSpent(tokens: map<nat, Token>, id: nat) {
    forall i | i in tokens && i != id && !tokens[i].purpose.ForSetup? :: tokens[i].consumed
  }

  function AfterReset(tokens: map<nat, Token>, id: nat, parent: nat): map<nat, Token> {
    ResetsSpent(Only(tokens, Untouched(tokens, id, parent)))
  }

  lemma OnlyKeeps(tokens: map<nat, Token>, nextId: nat, newest: nat, clock: int, id: nat)
    requires TableSound(tokens, nextId, newest, clock) && id in tokens && tokens[id].parent == Parent(newest)
    ensures TableSound(Only(tokens, Untouched(tokens, id, newest)), nextId, newest, clock)
  {
  }

  lemma SpentKeeps(tokens: map<nat, Token>, nextId: nat, newest: nat, clock: int)
    requires TableSound(tokens, nextId, newest, clock)
    ensures TableSound(ResetsSpent(tokens), nextId, newest, clock)
  {
  }

  lemma ResetKeeps(tokens: map<nat, Token>, nextId: nat, newest: nat, clock: int, id: nat)
    requires TableSound(tokens, nextId, newest, clock) && id in tokens && tokens[id].parent == Parent(newest)
    requires tokens[id].purpose.ForEnrolment?
    requires newest in tokens && tokens[newest].purpose.ForReset?
    ensures var after := AfterReset(tokens, id, newest);
      && TableSound(after, nextId, newest, clock) && id in after && after[id] == tokens[id]
      && OthersSpent(after, id)
  {
    OnlyKeeps(tokens, nextId, newest, clock, id);
    SpentKeeps(Only(tokens, Untouched(tokens, id, newest)), nextId, newest, clock);
  }

  predicate FromSpent(tokens: map<nat, Token>, t: Token, purpose: Purpose) {
    t.parent.Parent? && t.parent.id in tokens && tokens[t.parent.id].consumed && tokens[t.parent.id].purpose == purpose
  }

  /** A verified enrolment still applies. */
  ghost predicate Applicable(admin: Admin, tokens: map<nat, Token>, id: nat, maintenance: bool)
    requires id in tokens && tokens[id].payload.Enrolment?
  {
    match tokens[id].payload.kind
    case Setup => SetupApplies(admin, tokens, id)
    case Upgrade => UpgradeApplies(admin, tokens, id)
    case Reset => ResetApplies(admin, tokens, id) && !maintenance
  }

  predicate SetupApplies(admin: Admin, tokens: map<nat, Token>, id: nat)
    requires id in tokens
  {
    FromSpent(tokens, tokens[id], ForSetup) && admin.NoAdmin?
  }

  predicate UpgradeApplies(admin: Admin, tokens: map<nat, Token>, id: nat)
    requires id in tokens && tokens[id].payload.Enrolment?
  {
    admin.Admin? && admin.password == tokens[id].payload.binding && admin.factor.NoFactor?
  }

  /** No newer reset token is in the table. */
  predicate ResetApplies(admin: Admin, tokens: map<nat, Token>, id: nat)
    requires id in tokens
  {
    && FromSpent(tokens, tokens[id], ForReset) && admin.Admin?
    && forall i | i in tokens && tokens[i].purpose.ForReset? :: i <= tokens[id].parent.id
  }

  /** The code is right, and the enrolment began in the present scope. */
  ghost predicate Verified(code: Codes, p: Payload, text: string, scope: string, now: nat) {
    p.Enrolment? && Verifies(code, p.secret, text, now, 0) && (p.scope == "" || p.scope == scope)
  }

  /** When an enrolment is confirmed. */
  ghost predicate Confirmable(code: Codes, admin: Admin, tokens: map<nat, Token>, id: nat, text: string, scope: string,
                              maintenance: bool, now: nat)
  {
    && Usable(tokens, id, ForEnrolment, now) && Verified(code, tokens[id].payload, text, scope, now)
    && Applicable(admin, tokens, id, maintenance)
  }

  /** Spending an attempt does not change whether an enrolment applies. */
  lemma SpendingIsNeutral(admin: Admin, tokens: map<nat, Token>, nextId: nat, id: nat, maintenance: bool,
                          after: map<nat, Token>)
    requires TokensSound(tokens, nextId) && id in tokens && tokens[id].payload.Enrolment?
    requires after == tokens[id := tokens[id].(attempts := tokens[id].attempts + 1)]
    ensures Applicable(admin, after, id, maintenance) <==> Applicable(admin, tokens, id, maintenance)
  {
    assert forall i | i in after :: after[i].purpose == tokens[i].purpose;
  }

  /** A reset that applies is the newest ever issued. */
  lemma OnlyTheNewestApplies(admin: Admin, tokens: map<nat, Token>, nextId: nat, newest: nat, clock: int, id: nat)
    requires TableSound(tokens, nextId, newest, clock) && id in tokens && tokens[id].purpose.ForEnrolment?
    requires tokens[id].expiresAt > clock
    requires ResetApplies(admin, tokens, id)
    ensures tokens[id].parent == Parent(newest)
  {
  }

  /** The administrator an enrolment leaves: its factor, with the password it set or was bound to. */
  predicate Confirmed(p: Payload, step: int, after: Admin)
    requires p.Enrolment?
  {
    after == Admin(if p.kind.Upgrade? then p.binding else p.password, Factor(p.secret), step, 0, 0)
  }

  /** No sign-in step begun before is left to finish. */
  predicate OnlySetupLeft(tokens: map<nat, Token>) {
    forall i | i in tokens && !tokens[i].purpose.ForSetup? :: tokens[i].consumed
  }

  /** When a code completes the password step. */
  ghost predicate Acceptable(code: Codes, admin: Admin, tokens: map<nat, Token>, id: nat, text: string, scope: string,
                             now: nat)
  {
    && admin.Admin? && admin.lockedUntil <= now && Usable(tokens, id, ForCode, now)
    && tokens[id].payload == PasswordStep(admin.password, scope)
    && admin.factor.Factor? && Verifies(code, admin.factor.secret, text, now, admin.lastStep)
  }

  function AfterFailure(admin: Admin, now: int): Admin
    requires admin.Admin?
  {
    var failures := admin.failures + 1;
    admin.(failures := failures,
           lockedUntil := if failures % 5 == 0 then now + MINUTE * Lock(failures / 5) else admin.lockedUntil)
  }

  /** One more wrong code: if the last one locked code entry, that lock has run out since. */
  lemma FailureKeeps(admin: Admin, first: int, last: int, clock: int)
    requires LockSound(admin, first, last, clock) && admin.Admin? && admin.lockedUntil <= clock
    ensures LockSound(AfterFailure(admin, clock), if admin.failures == 0 then clock else first, clock, clock)
  {
    var f := admin.failures;
    if f > 0 {
      if f % 5 == 0 {
        assert f / 5 == (f - 1) / 5 + 1;
        assert LockSum(f / 5) == LockSum((f - 1) / 5) + Lock(f / 5);
      } else {
        assert f / 5 == (f - 1) / 5;
      }
    }
  }

  lemma AscendingSnoc(steps: seq<int>, step: int)
    requires Ascending(steps) && (steps == [] || steps[|steps| - 1] < step)
    ensures Ascending(steps + [step])
  {
    assert (steps + [step])[..|steps|] == steps;
  }

  /** Accepted steps are pairwise different: a code works once. */
  lemma {:induction false} AcceptedOnce(steps: seq<int>, i: nat, j: nat)
    requires Ascending(steps) && i < j < |steps|
    ensures steps[i] < steps[j]
  {
    if j < |steps| - 1 { AcceptedOnce(steps[..|steps| - 1], i, j); }
    else if i < j - 1 { AcceptedOnce(steps[..|steps| - 1], i, j - 1); }
  }

  class Store {
    /** The code of a secret at a step. */
    const code: (string, int) -> string
    var admin: Admin
    var tokens: map<nat, Token>
    var nextId: nat
    var sessions: map<nat, Session>
    /** The latest time read; the clock does not go back. */
    var clock: nat
    /** The password that the step behind each session proved. */
    ghost var proved: map<nat, string>
    /** The steps accepted for the present factor. */
    ghost var accepted: seq<int>
    /** The newest reset token ever issued. */
    ghost var newestReset: nat
    ghost var firstFailure: int
    ghost var lastFailure: int
    /** How many administrators were ever inserted. */
    ghost var administrators: nat

    ghost predicate Valid()
      reads this
    {
      && TableSound(tokens, nextId, newestReset, clock) && 0 < nextId && (admin.NoAdmin? ==> newestReset == 0)
      && SessionsSound(admin, sessions, proved)
      && FactorSound(admin, accepted)
      && LockSound(admin, firstFailure, lastFailure, clock)
      && administrators == (if admin.Admin? then 1 else 0)
    }

    constructor (code: (string, int) -> string)
      ensures Valid() && admin == NoAdmin && tokens == map[] && sessions == map[] && administrators == 0
    {
      this.code := code;
      admin, tokens, nextId, sessions := NoAdmin, map[], 1, map[];
      clock, proved, accepted, newestReset, firstFailure, lastFailure, administrators := 0, map[], [], 0, 0, 0, 0;
    }

    // ----- statements inside a transaction -----

    /** Old tokens are pruned as a new one is issued. */
    method Issue(purpose: Purpose, ttl: int, max: nat, parent: Parent, payload: Payload, now: nat) returns (id: nat)
      requires Valid() && now == clock
      requires parent.Parent? ==> parent.id in tokens && tokens[parent.id].expiresAt > now
      requires purpose.ForEnrolment? ==> ttl <= ENROL_TTL && (parent.Parent? ==> parent.id >= newestReset)
      requires purpose.ForReset? ==>
        && admin.Admin? && ttl >= ENROL_TTL && parent.NoParent?
        && forall i | i in tokens && tokens[i].purpose.ForReset? :: tokens[i].consumed
      modifies this`tokens, this`nextId, this`newestReset
      ensures Valid()
      ensures id == old(nextId) && nextId == id + 1
      ensures tokens == Only(old(tokens), Unexpired(old(tokens), now))
        [id := Token(purpose, now + ttl, false, 0, max, parent, payload)]
      ensures newestReset == if purpose.ForReset? then id else old(newestReset)
    {
      PruneKeeps(tokens, nextId, newestReset, clock);
      tokens := Only(tokens, Unexpired(tokens, now));
      id := nextId;
      var token := Token(purpose, now + ttl, false, 0, max, parent, payload);
      if purpose.ForReset? {
        InsertResetKeeps(tokens, nextId, newestReset, clock, token);
      } else {
        InsertKeeps(tokens, nextId, newestReset, clock, token);
      }
      tokens := tokens[id := token];
      nextId := nextId + 1;
      if purpose.ForReset? { newestReset := id; }
    }

    method Spend(id: nat)
      requires Valid() && id in tokens && tokens[id].attempts < tokens[id].max
      modifies this`tokens
      ensures Valid() && tokens == old(tokens)[id := old(tokens)[id].(attempts := old(tokens)[id].attempts + 1)]
    {
      tokens := tokens[id := tokens[id].(attempts := tokens[id].attempts + 1)];
    }

    method Consume(id: nat)
      requires Valid() && id in tokens
      modifies this`tokens
      ensures Valid() && tokens == old(tokens)[id := old(tokens)[id].(consumed := true)]
    {
      tokens := tokens[id := tokens[id].(consumed := true)];
    }

    /** The one administrator row. */
    method Install(password: string, factor: Factor, step: int)
      requires Valid() && admin.NoAdmin?
      modifies this`admin, this`administrators, this`accepted
      ensures Valid() && admin == Admin(password, factor, step, 0, 0) && administrators == 1
    {
      admin, administrators, accepted := Admin(password, factor, step, 0, 0), administrators + 1, [step];
    }

    /** Time passes. */
    method Tick(now: nat)
      requires Valid() && now >= clock
      modifies this`clock
      ensures Valid() && clock == now
    {
      clock := now;
    }

    method Redeem(id: nat)
      requires Valid() && id in tokens && tokens[id].attempts < tokens[id].max
      modifies this`tokens
      ensures Valid()
      ensures tokens == old(tokens)[id := old(tokens)[id].(attempts := old(tokens)[id].attempts + 1, consumed := true)]
    {
      Spend(id);
      Consume(id);
    }

    /** The last failed attempt consumes the token. */
    method SpendFailure(id: nat)
      requires Valid() && id in tokens
      modifies this`tokens
      ensures Valid()
      ensures tokens == old(tokens)[id :=
        old(tokens)[id].(consumed := old(tokens)[id].consumed || old(tokens)[id].attempts >= old(tokens)[id].max)]
    {
      if tokens[id].attempts >= tokens[id].max { Consume(id); }
    }

    /** A one-use token is spent for an enrolment that hangs on it. */
    method Exchange(id: nat, payload: Payload, now: nat) returns (enrol: nat)
      requires Valid() && now == clock && id in tokens && tokens[id].attempts < tokens[id].max
      requires tokens[id].expiresAt > now && id >= newestReset
      modifies this`tokens, this`nextId, this`newestReset
      ensures Valid() && newestReset == old(newestReset)
      ensures Started(tokens, enrol, Parent(id), payload, now) && id in tokens && tokens[id].consumed
    {
      Redeem(id);
      assert id in Unexpired(tokens, now);
      enrol := Issue(ForEnrolment, ENROL_TTL, CODE_TRIES, Parent(id), payload, now);
    }

    /** A session opened by a step that proved the given password. */
    method AddRow(session: nat, scope: string, ghost password: string, now: nat)
      requires Valid() && admin.Admin? && password == admin.password
      modifies this`sessions, this`proved
      ensures Valid()
      ensures sessions == Opened(old(sessions), session, scope, now)
      ensures proved == Restrict(old(proved), sessions.Keys)[session := password]
    {
      sessions := Opened(sessions, session, scope, now);
      proved := Restrict(proved, sessions.Keys)[session := password];
    }

    /** The session that a confirmed step earns, and the end of the step. */
    method Finish(id: nat, session: nat, scope: string, ghost password: string, now: nat)
      requires Valid() && id in tokens && admin.Admin? && password == admin.password
      modifies this`sessions, this`proved, this`tokens
      ensures Valid() && tokens == old(tokens)[id := old(tokens)[id].(consumed := true)]
      ensures sessions == Opened(old(sessions), session, scope, now) && session in proved && proved[session] == password
    {
      AddRow(session, scope, password, now);
      Consume(id);
    }

    // ----- setup -----

    /** Only a live, unused token blocks a replacement. */
    method NewSetupToken(now: nat) returns (answer: Answer, id: nat)
      requires Valid() && now >= clock
      modifies this
      ensures Valid() && admin == old(admin) && sessions == old(sessions)
      ensures answer.Done? <==>
        old(admin).NoAdmin? && !exists i :: i in old(tokens) && Live(old(tokens)[i], ForSetup, now)
      ensures answer.Done? ==> Usable(tokens, id, ForSetup, now) && tokens[id].max == 1
      ensures !answer.Done? ==> tokens == old(tokens)
    {
      Tick(now);
      id := 0;
      if admin.Admin? { return BadToken, 0; }
      if exists i | i in tokens :: Live(tokens[i], ForSetup, now) { return NotNow, 0; }
      id := Issue(ForSetup, SETUP_TTL, 1, NoParent, Empty, now);
      answer := Done;
    }

    /** Tunnel mode: the administrator in one step, without a factor. */
    method Setup(id: nat, password: string, session: nat, scope: string, now: nat) returns (answer: Answer)
      requires Valid() && now >= clock
      modifies this
      ensures Valid()
      ensures answer.Done? <==> Usable(old(tokens), id, ForSetup, now) && old(admin).NoAdmin?
      ensures answer.Done? ==> admin == Admin(password, NoFactor, 0, 0, 0) && !Usable(tokens, id, ForSetup, now)
      ensures answer.Done? ==> sessions == Opened(old(sessions), session, scope, now) && proved[session] == password
      ensures !answer.Done? ==> admin == old(admin) && tokens == old(tokens) && sessions == old(sessions)
    {
      Tick(now);
      if !Usable(tokens, id, ForSetup, now) || admin.Admin? { return BadToken; }
      Redeem(id);
      Install(password, NoFactor, 0);
      AddRow(session, scope, password, now);
      answer := Done;
    }

    /** HTTPS mode: the setup token is spent first, so no competing enrolment can start. */
    method BeginEnrolment(id: nat, payload: Payload, now: nat) returns (answer: Answer, enrol: nat)
      requires Valid() && now >= clock
      modifies this
      ensures Valid() && admin == old(admin) && sessions == old(sessions)
      ensures answer.Done? <==> Usable(old(tokens), id, ForSetup, now) && old(admin).NoAdmin?
      ensures answer.Done? ==> Started(tokens, enrol, Parent(id), payload, now) && id in tokens && tokens[id].consumed
      ensures !answer.Done? ==> tokens == old(tokens)
    {
      Tick(now);
      enrol := 0;
      if !Usable(tokens, id, ForSetup, now) || admin.Admin? { return BadToken, 0; }
      enrol := Exchange(id, payload, now);
      answer := Done;
    }

    /** An administrator without a factor enrols one straight after the password step. */
    method BeginUpgrade(payload: Payload, now: nat) returns (enrol: nat)
      requires Valid() && now >= clock
      modifies this
      ensures Valid() && admin == old(admin) && sessions == old(sessions)
      ensures Started(tokens, enrol, NoParent, payload, now)
    {
      Tick(now);
      enrol := Issue(ForEnrolment, ENROL_TTL, CODE_TRIES, NoParent, payload, now);
    }

    // ----- reset -----

    /** Replaces any earlier unused reset token. */
    method NewResetToken(now: nat) returns (answer: Answer, id: nat)
      requires Valid() && now >= clock
      modifies this
      ensures Valid() && admin == old(admin) && sessions == old(sessions)
      ensures answer.Done? <==> old(admin).Admin?
      ensures answer.Done? ==>
        && Usable(tokens, id, ForReset, now) && newestReset == id
        && forall i | i != id :: !Usable(tokens, i, ForReset, now)
      ensures !answer.Done? ==> tokens == old(tokens) && newestReset == old(newestReset)
    {
      Tick(now);
      id := 0;
      if admin.NoAdmin? { return BadToken, 0; }
      SpendResets();
      id := Issue(ForReset, RESET_TTL, 1, NoParent, Empty, now);
      answer := Done;
    }

    method SpendResets()
      requires Valid()
      modifies this`tokens
      ensures Valid() && tokens == ResetsSpent(old(tokens))
    {
      tokens := ResetsSpent(tokens);
    }

    /** Nothing about the password, factor or sessions changes until a code confirms. */
    method BeginReset(id: nat, payload: Payload, now: nat) returns (answer: Answer, enrol: nat)
      requires Valid() && now >= clock
      modifies this
      ensures Valid() && admin == old(admin) && sessions == old(sessions) && newestReset == old(newestReset)
      ensures answer.Done? <==> Usable(old(tokens), id, ForReset, now)
      ensures answer.Done? ==> Started(tokens, enrol, Parent(newestReset), payload, now) && id == newestReset
      ensures !answer.Done? ==> tokens == old(tokens)
    {
      Tick(now);
      enrol := 0;
      if !Usable(tokens, id, ForReset, now) { return BadToken, 0; }
      enrol := Exchange(id, payload, now);
      answer := Done;
    }

    /** Ends a pending or enrolment step the user walked away from. */
    method Abandon(id: nat, now: nat)
      requires Valid() && now >= clock
      modifies this
      ensures Valid() && admin == old(admin) && sessions == old(sessions)
      ensures !Usable(tokens, id, ForCode, now) && !Usable(tokens, id, ForEnrolment, now)
      ensures forall i | i != id :: i in tokens <==> i in old(tokens)
      ensures forall i | i != id && i in tokens :: tokens[i] == old(tokens)[i]
    {
      Tick(now);
      if id in tokens && (tokens[id].purpose.ForCode? || tokens[id].purpose.ForEnrolment?) && !tokens[id].consumed {
        Consume(id);
      }
    }

    // ----- confirmation -----

    /** The first administrator, with the factor that was just confirmed. */
    method ApplySetup(id: nat, step: int) returns (ok: bool)
      requires Valid() && id in tokens && tokens[id].payload.Enrolment?
      modifies this`admin, this`administrators, this`accepted
      ensures Valid() && ok == SetupApplies(old(admin), tokens, id)
      ensures admin == if ok then Admin(tokens[id].payload.password, Factor(tokens[id].payload.secret), step, 0, 0)
        else old(admin)
    {
      var t := tokens[id];
      if !FromSpent(tokens, t, ForSetup) || admin.Admin? { return false; }
      Install(t.payload.password, Factor(t.payload.secret), step);
      ok := true;
    }

    /** Only the first enrolment can set a factor, and only for the password it was begun with. */
    method ApplyUpgrade(id: nat, step: int) returns (ok: bool)
      requires Valid() && id in tokens && tokens[id].payload.Enrolment?
      modifies this`admin, this`accepted
      ensures Valid() && ok == UpgradeApplies(old(admin), tokens, id)
      ensures admin == if ok then Admin(tokens[id].payload.binding, Factor(tokens[id].payload.secret), step, 0, 0)
        else old(admin)
    {
      var p := tokens[id].payload;
      if admin.NoAdmin? || admin.password != p.binding { return false; }
      if admin.factor.Factor? { return false; }
      admin, accepted := admin.(factor := Factor(p.secret), lastStep := step, failures := 0, lockedUntil := 0), [step];
      ok := true;
    }

    /** The new password and factor; every session and every other step is dropped. */
    method ApplyReset(id: nat, step: int)
      requires Valid() && id in tokens && tokens[id].purpose.ForEnrolment? && tokens[id].expiresAt > clock
      requires tokens[id].payload.Enrolment?
      requires ResetApplies(admin, tokens, id)
      modifies this`admin, this`accepted, this`sessions, this`proved, this`tokens
      ensures Valid() && old(tokens)[id].parent == Parent(newestReset) && sessions == map[]
      ensures admin == Admin(old(tokens)[id].payload.password, Factor(old(tokens)[id].payload.secret), step, 0, 0)
      ensures id in tokens && tokens[id] == old(tokens)[id] && OthersSpent(tokens, id)
    {
      var p := tokens[id].payload;
      SpendOthers(id);
      admin, accepted := Admin(p.password, Factor(p.secret), step, 0, 0), [step];
      sessions, proved := map[], map[];
    }

    /** Only the newest reset applies; every other step is spent with it. */
    method SpendOthers(id: nat)
      requires Valid() && id in tokens && tokens[id].purpose.ForEnrolment? && tokens[id].expiresAt > clock
      requires tokens[id].payload.Enrolment?
      requires ResetApplies(admin, tokens, id)
      modifies this`tokens
      ensures Valid() && old(tokens)[id].parent == Parent(newestReset)
      ensures id in tokens && tokens[id] == old(tokens)[id] && OthersSpent(tokens, id)
    {
      OnlyTheNewestApplies(admin, tokens, nextId, newestReset, clock, id);
      ResetKeeps(tokens, nextId, newestReset, clock, id);
      tokens := AfterReset(tokens, id, tokens[id].parent.id);
    }

    method ApplyEnrolment(id: nat, step: int, maintenance: bool) returns (answer: Answer)
      requires Valid() && id in tokens && tokens[id].purpose.ForEnrolment? && tokens[id].expiresAt > clock
      requires tokens[id].payload.Enrolment?
      modifies this`admin, this`administrators, this`accepted, this`sessions, this`proved, this`tokens
      ensures Valid() && (answer.Done? || answer.BadToken? || answer.NotNow?)
      ensures answer.Done? <==> Applicable(old(admin), old(tokens), id, maintenance)
      ensures !answer.Done? ==> admin == old(admin) && sessions == old(sessions) && tokens == old(tokens)
      ensures answer.Done? ==>
        Confirmed(old(tokens)[id].payload, step, admin) && id in tokens && tokens[id] == old(tokens)[id]
      ensures answer.Done? && !old(tokens)[id].payload.kind.Reset? ==> sessions == old(sessions)
      ensures answer.Done? && old(tokens)[id].payload.kind.Reset? ==>
        sessions == map[] && old(tokens)[id].parent == Parent(newestReset) && OthersSpent(tokens, id)
    {
      var ok;
      match tokens[id].payload.kind {
        case Setup => ok := ApplySetup(id, step);
        case Upgrade => ok := ApplyUpgrade(id, step);
        case Reset =>
          ok := ResetApplies(admin, tokens, id);
          if ok && maintenance { return NotNow; }
          if ok { ApplyReset(id, step); }
      }
      answer := if ok then Done else BadToken;
    }

    /** A verified enrolment that can no longer apply is spent for good; an update in progress
        refuses a reset without a trace. */
    method Complete(id: nat, step: int, session: nat, scope: string, maintenance: bool, now: nat)
      returns (answer: Answer)
      requires Valid() && now == clock && id in tokens && tokens[id].purpose.ForEnrolment?
      requires tokens[id].expiresAt > clock && tokens[id].payload.Enrolment?
      modifies this
      ensures Valid() && newestReset == old(newestReset) && clock == old(clock)
      ensures answer.Done? <==> Applicable(old(admin), old(tokens), id, maintenance)
      ensures !answer.Done? ==> admin == old(admin) && sessions == old(sessions) && nextId == old(nextId)
      ensures answer.Done? ==> Confirmed(old(tokens)[id].payload, step, admin) && id in tokens && tokens[id].consumed
      ensures answer.Done? ==>
        sessions == Opened(if old(tokens)[id].payload.kind.Reset? then map[] else old(sessions), session, scope, now)
      ensures answer.Done? && old(tokens)[id].payload.kind.Reset? ==>
        old(tokens)[id].parent == Parent(newestReset) && OnlySetupLeft(tokens)
    {
      var p := tokens[id].payload;
      answer := ApplyEnrolment(id, step, maintenance);
      if answer.BadToken? { Consume(id); }
      if !answer.Done? { return; }
      Finish(id, session, scope, if p.kind.Upgrade? then p.binding else p.password, now);
      answer := Done;
    }

    /** Spends an attempt; a wrong code may be the last, and a changed scope ends the enrolment. */
    method CheckEnrolment(id: nat, text: string, scope: string, now: nat) returns (answer: Answer, step: int)
      requires Valid() && now == clock && Usable(tokens, id, ForEnrolment, now)
      modifies this`tokens
      ensures Valid() && (answer.Done? || answer.BadToken? || answer.BadCode?)
      ensures answer.Done? <==> Verified(code, old(tokens)[id].payload, text, scope, now)
      ensures answer.Done? ==> tokens == old(tokens)[id := old(tokens)[id].(attempts := old(tokens)[id].attempts + 1)]
    {
      step := 0;
      var p := tokens[id].payload;
      Spend(id);
      if !p.Enrolment? { SpendFailure(id); return BadToken, 0; }
      var ok, reused;
      step, ok, reused := VerifyCode(code, p.secret, text, now, 0);
      if !ok { SpendFailure(id); return BadCode, 0; }
      if p.scope != "" && p.scope != scope { Consume(id); return BadToken, 0; }
      answer := Done;
    }

    /** Completes setup, a reset or an upgrade in one transaction. */
    method ConfirmEnrolment(id: nat, text: string, session: nat, scope: string, maintenance: bool, now: nat)
      returns (answer: Answer)
      requires Valid() && now >= clock
      modifies this
      ensures Valid() && newestReset == old(newestReset)
      ensures answer.Done? <==> Confirmable(code, old(admin), old(tokens), id, text, scope, maintenance, now)
      ensures !answer.Done? ==> admin == old(admin) && sessions == old(sessions)
      ensures answer.NotNow? ==> tokens == old(tokens)
      ensures answer.Done? ==>
        && admin.Admin? && Confirmed(old(tokens)[id].payload, admin.lastStep, admin)
        && !Usable(tokens, id, ForEnrolment, now)
      ensures answer.Done? ==>
        sessions == Opened(if old(tokens)[id].payload.kind.Reset? then map[] else old(sessions), session, scope, now)
      ensures answer.Done? && old(tokens)[id].payload.kind.Reset? ==>
        old(tokens)[id].parent == Parent(newestReset) && OnlySetupLeft(tokens)
    {
      Tick(now);
      if !Usable(tokens, id, ForEnrolment, now) { return BadToken; }
      answer := ConfirmUsable(id, text, session, scope, maintenance, now);
    }

    method ConfirmUsable(id: nat, text: string, session: nat, scope: string, maintenance: bool, now: nat)
      returns (answer: Answer)
      requires Valid() && now == clock && Usable(tokens, id, ForEnrolment, now)
      modifies this
      ensures Valid() && newestReset == old(newestReset)
      ensures answer.Done? <==>
        && Verified(code, old(tokens)[id].payload, text, scope, now)
        && Applicable(old(admin), old(tokens), id, maintenance)
      ensures !answer.Done? ==> admin == old(admin) && sessions == old(sessions)
      ensures answer.NotNow? ==> tokens == old(tokens)
      ensures answer.Done? ==>
        admin.Admin? && Confirmed(old(tokens)[id].payload, admin.lastStep, admin) && id in tokens && tokens[id].consumed
      ensures answer.Done? ==>
        sessions == Opened(if old(tokens)[id].payload.kind.Reset? then map[] else old(sessions), session, scope, now)
      ensures answer.Done? && old(tokens)[id].payload.kind.Reset? ==>
        old(tokens)[id].parent == Parent(newestReset) && OnlySetupLeft(tokens)
    {
      var snapshot, step := tokens, 0;
      answer, step := CheckEnrolment(id, text, scope, now);
      if !answer.Done? { return; }
      SpendingIsNeutral(admin, snapshot, nextId, id, maintenance, tokens);
      answer := Complete(id, step, session, scope, maintenance, now);
      if answer.NotNow? { tokens := snapshot; }
    }

    // ----- the password step and its code -----

    /** Records a successful password step; it is bound to the password it proved. */
    method BeginPending(password: string, scope: string, now: nat) returns (id: nat)
      requires Valid() && now >= clock
      modifies this
      ensures Valid() && admin == old(admin) && sessions == old(sessions)
      ensures id in tokens
      ensures tokens[id] == Token(ForCode, now + PENDING_TTL, false, 0, CODE_TRIES, NoParent,
        PasswordStep(password, scope))
    {
      Tick(now);
      id := Issue(ForCode, PENDING_TTL, CODE_TRIES, NoParent, PasswordStep(password, scope), now);
    }

    /** A password-only session, bound to the password the caller verified and to the absence of a factor. */
    method AddSession(session: nat, scope: string, password: string, now: nat) returns (answer: Answer)
      requires Valid() && now >= clock
      modifies this
      ensures Valid() && admin == old(admin) && tokens == old(tokens)
      ensures answer.Done? <==> admin.Admin? && admin.password == password && admin.factor.NoFactor?
      ensures sessions == if answer.Done? then Opened(old(sessions), session, scope, now) else old(sessions)
      ensures answer.Done? ==> session in proved && proved[session] == password
    {
      Tick(now);
      if admin.NoAdmin? || admin.password != password || admin.factor.Factor? { return CredentialsChanged; }
      AddRow(session, scope, password, now);
      answer := Done;
    }

    method Logout(session: nat)
      requires Valid()
      modifies this`sessions, this`proved
      ensures Valid() && sessions == old(sessions) - {session}
    {
      sessions, proved := sessions - {session}, proved - {session};
    }

    /** Every fifth wrong code in a row locks code entry, for longer each time. */
    method CountFailure(now: nat)
      requires Valid() && now == clock && admin.Admin? && admin.lockedUntil <= now
      modifies this`admin, this`firstFailure, this`lastFailure
      ensures Valid() && lastFailure == now
      ensures firstFailure == (if old(admin).failures == 0 then now else old(firstFailure))
      ensures admin == AfterFailure(old(admin), now)
    {
      var failures := admin.failures + 1;
      var locked := 0;
      if failures % 5 == 0 {
        ShiftIsLock(failures / 5);
        var lock := Power(failures / 5 - 1);
        if failures / 5 > 7 || lock > 60 { lock := 60; }
        locked := now + MINUTE * lock;
      }
      FailureKeeps(admin, firstFailure, lastFailure, clock);
      if admin.failures == 0 { firstFailure := now; }
      lastFailure := now;
      admin := admin.(failures := failures, lockedUntil := if failures % 5 == 0 then locked else admin.lockedUntil);
    }

    /** Spends an attempt; a step for another password or scope, or without a factor, no longer counts. */
    method CheckStep(id: nat, scope: string) returns (ok: bool)
      requires Valid() && admin.Admin? && id in tokens && tokens[id].attempts < tokens[id].max
      modifies this`tokens
      ensures Valid() && id in tokens && tokens[id].payload == old(tokens)[id].payload
      ensures ok <==> old(tokens)[id].payload == PasswordStep(admin.password, scope) && admin.factor.Factor?
    {
      var p := tokens[id].payload;
      Spend(id);
      ok := p.PasswordStep? && p.binding == admin.password && p.scope == scope && admin.factor.Factor?;
      if !ok { Consume(id); }
    }

    /** Checks a code against the stored factor.  While code entry is locked nothing is spent or written. */
    method ConfirmPending(id: nat, text: string, session: nat, scope: string, now: nat) returns (answer: Answer)
      requires Valid() && now >= clock
      modifies this
      ensures Valid()
      ensures answer.Done? <==> Acceptable(code, old(admin), old(tokens), id, text, scope, now)
      ensures answer.Done? ==>
        && admin.Admin? && FirstMatch(code, old(admin).factor.secret, text, now, admin.lastStep)
        && admin.lastStep > old(admin).lastStep
      ensures answer.Done? ==>
        admin.Admin? && admin == old(admin).(lastStep := admin.lastStep, failures := 0, lockedUntil := 0)
      ensures answer.Done? ==>
        && admin.Admin? && accepted == old(accepted) + [admin.lastStep]
        && sessions == Opened(old(sessions), session, scope, now) && !Usable(tokens, id, ForCode, now)
      ensures !answer.Done? ==> sessions == old(sessions) && accepted == old(accepted)
      ensures answer.Locked? <==> old(admin).Admin? && old(admin).lockedUntil > now
      ensures answer.Locked? ==> tokens == old(tokens) && answer.seconds == old(admin).lockedUntil - now
      ensures answer.BadCode? ==> old(admin).Admin? && admin == AfterFailure(old(admin), now) && lastFailure == now
      ensures !answer.Done? && !answer.BadCode? ==> admin == old(admin)
    {
      Tick(now);
      if admin.NoAdmin? { return BadToken; }
      if admin.lockedUntil > now { return Locked(admin.lockedUntil - now); }
      if !Usable(tokens, id, ForCode, now) { return BadToken; }
      var bound := CheckStep(id, scope);
      if !bound { return BadToken; }
      answer := TryCode(id, text, session, scope, now);
    }

    /** The code decides: a wrong one is counted, one already used is not. */
    method TryCode(id: nat, text: string, session: nat, scope: string, now: nat) returns (answer: Answer)
      requires Valid() && now == clock && id in tokens && admin.Admin? && admin.factor.Factor?
      requires tokens[id].payload.PasswordStep? && tokens[id].payload.binding == admin.password
      requires admin.lockedUntil <= now
      modifies this
      ensures Valid() && (answer.Done? || answer.BadCode? || answer.UsedCode?)
      ensures answer.Done? <==> Verifies(code, old(admin).factor.secret, text, now, old(admin).lastStep)
      ensures answer.Done? ==> admin.Admin? && FirstMatch(code, old(admin).factor.secret, text, now, admin.lastStep)
      ensures answer.Done? ==> admin.Admin? && admin.lastStep > old(admin).lastStep
      ensures answer.Done? ==>
        admin.Admin? && admin == old(admin).(lastStep := admin.lastStep, failures := 0, lockedUntil := 0)
      ensures answer.Done? ==> admin.Admin? && accepted == old(accepted) + [admin.lastStep]
      ensures answer.Done? ==>
        sessions == Opened(old(sessions), session, scope, now) && id in tokens && tokens[id].consumed
      ensures !answer.Done? ==> sessions == old(sessions) && accepted == old(accepted)
      ensures answer.BadCode? ==> admin == AfterFailure(old(admin), now) && lastFailure == now
      ensures answer.UsedCode? ==> admin == old(admin)
    {
      var step, ok, reused := VerifyCode(code, admin.factor.secret, text, now, admin.lastStep);
      if ok {
        Accept(id, step, session, scope, now);
        return Done;
      }
      SpendFailure(id);
      if reused { return UsedCode; }
      CountFailure(now);
      answer := BadCode;
    }

    method Remember(step: int)
      requires Valid() && admin.Admin? && admin.factor.Factor? && step > admin.lastStep
      modifies this`admin, this`accepted
      ensures Valid() && admin == old(admin).(lastStep := step, failures := 0, lockedUntil := 0)
      ensures accepted == old(accepted) + [step]
    {
      AscendingSnoc(accepted, step);
      admin, accepted := admin.(lastStep := step, failures := 0, lockedUntil := 0), accepted + [step];
    }

    /** A code is accepted once: the step is remembered with the session it opens. */
    method Accept(id: nat, step: int, session: nat, scope: string, now: nat)
      requires Valid() && id in tokens && admin.Admin? && admin.factor.Factor? && step > admin.lastStep
      requires tokens[id].payload.PasswordStep? && tokens[id].payload.binding == admin.password
      modifies this`admin, this`accepted, this`sessions, this`proved, this`tokens
      ensures Valid() && tokens == old(tokens)[id := old(tokens)[id].(consumed := true)]
      ensures admin == old(admin).(lastStep := step, failures := 0, lockedUntil := 0)
      ensures accepted == old(accepted) + [step]
      ensures sessions == Opened(old(sessions), session, scope, now)
      ensures session in proved && proved[session] == old(tokens)[id].payload.binding
    {
      Remember(step);
      Finish(id, session, scope, tokens[id].payload.binding, now);
    }

    /** Any requests in any order, at times that do not go back. */
    method AnyRun(requests: nat)
      requires Valid()
      modifies this
      ensures Valid() && administrators <= 1
      ensures old(admin).Admin? ==> admin.Admin?
    {
      for i := 0 to requests
        invariant Valid() && (old(admin).Admin? ==> admin.Admin?)
      {
        var now: nat, id: nat, text: string, session: nat, scope: string, password: string,
            payload: Payload, flag: bool := *, *, *, *, *, *, *, *;
        Request(now, id, text, session, scope, password, payload, flag);
      }
    }

    /** One request of any kind; a clock reading before the last one is taken as the last one. */
    method Request(reading: nat, id: nat, text: string, session: nat, scope: string, password: string,
                   payload: Payload, flag: bool)
      requires Valid()
      modifies this
      ensures Valid() && (old(admin).Admin? ==> admin.Admin?)
    {
      var now := if reading < clock then clock else reading;
      var answer: Answer, token: nat;
      if
      case true => answer, token := NewSetupToken(now);
      case true => answer := Setup(id, password, session, scope, now);
      case true => answer, token := BeginEnrolment(id, payload, now);
      case true => token := BeginUpgrade(payload, now);
      case true => answer, token := NewResetToken(now);
      case true => answer, token := BeginReset(id, payload, now);
      case true => answer := ConfirmEnrolment(id, text, session, scope, flag, now);
      case true => token := BeginPending(password, scope, now);
      case true => answer := ConfirmPending(id, text, session, scope, now);
      case true => answer := AddSession(session, scope, password, now);
      case true => Abandon(id, now);
      case true => Logout(session);
    }
  }
}
