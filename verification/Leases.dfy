/** The lease protocol shared by node executions and durable interaction turns.

    A lease sits on a slot (an attempt or a turn) that is open while its work may
    still be done. The two source modules mirror each other clause by clause; what
    differs is only when a slot closes and whether closing clears the lease. */
module Leases {
  import opened Outcomes
  import Text

  datatype Lease = Lease(
    token: Option<string>,
    owner: Option<string>,
    heartbeatAt: Option<int>,
    expiresAt: Option<int>)

  const NO_LEASE := Lease(None, None, None, None)

  /** Python truthiness of an optional string. */
  predicate Truthy(o: Option<string>) { o.Some? && o.value != "" }

  predicate IsLive(l: Lease, now: int) {
    Truthy(l.token) && Truthy(l.owner) && l.expiresAt.Some? && l.expiresAt.value > now
  }

  predicate HasMetadata(l: Lease) {
    Truthy(l.token) || Truthy(l.owner) || l.expiresAt.Some?
  }

  /** All lease fields are set (with non-blank token and owner) or none is. */
  predicate WellFormed(l: Lease) {
    l == NO_LEASE
    || (l.token.Some? && Text.Strip(l.token.value) != "" && l.owner.Some? && l.owner.value != ""
        && l.heartbeatAt.Some? && l.expiresAt.Some?)
  }

  /** What a caller asks for; `minted` is the random token used when none is given. */
  datatype Request = Request(owner: string, ttl: int, requested: Option<string>, minted: string) {
    function Token(): string {
      if Truthy(requested) then requested.value else minted
    }
  }

  function Grant(l: Lease, open: bool, req: Request, now: int): Result<Lease> {
    if !open || Text.Strip(req.owner) == "" || IsLive(l, now) || Text.Strip(req.Token()) == "" || req.ttl <= 0 then
      Err(LeaseError)
    else
      Ok(Lease(Some(req.Token()), Some(Text.Strip(req.owner)), Some(now), Some(now + req.ttl)))
  }

  /** May a worker presenting `token` act on the lease? The stored token is compared with the stripped one. */
  predicate MayUse(l: Lease, open: bool, token: string, now: int, allowExpired: bool) {
    && Text.Strip(token) != ""
    && Truthy(l.token) && Truthy(l.owner)
    && l.token.value == Text.Strip(token)
    && open
    && (allowExpired || IsLive(l, now))
  }

  function Heartbeat(l: Lease, open: bool, token: string, ttl: int, now: int): Result<Lease> {
    if !MayUse(l, open, token, now, false) || ttl <= 0 then Err(LeaseError)
    else Ok(l.(heartbeatAt := Some(now), expiresAt := Some(now + ttl)))
  }

  function Release(l: Lease, open: bool, token: string, now: int): Result<Lease> {
    if MayUse(l, open, token, now, true) then Ok(NO_LEASE) else Err(LeaseError)
  }

  predicate Expired(l: Lease, open: bool, now: int) {
    open && HasMetadata(l) && !IsLive(l, now)
  }

  /** A request that names an owner, asks for a positive time, and whose token is not blank. */
  predicate Proper(req: Request) {
    Text.Strip(req.owner) != "" && Text.Strip(req.Token()) != "" && req.ttl > 0
  }

  /** A lease just granted shuts out every request until its time is up, and from then on only improper ones; a
      heartbeat moves that moment to the new expiry. */
  lemma GrantedUntil(l: Lease, req: Request, now: int, next: Request, later: int)
    requires Grant(l, true, req, now).Ok?
    ensures Grant(Grant(l, true, req, now).value, true, next, later).Ok? <==> later >= now + req.ttl && Proper(next)
    ensures forall token, ttl, at ::
      var beat := Heartbeat(Grant(l, true, req, now).value, true, token, ttl, at);
      beat.Ok? ==> (Grant(beat.value, true, next, later).Ok? <==> later >= at + ttl && Proper(next))
  {
    hide Text.Strip;
    Text.StripEmpty();
  }

  // ---- exactly when ---------------------------------------------------------------

  /** The lease names a holder and its time is not up. */
  predicate InForce(l: Lease, now: int) {
    l.token.Some? && l.token.value != "" && l.owner.Some? && l.owner.value != "" && l.expiresAt.Some?
    && now < l.expiresAt.value
  }

  /** Presented is, up to white space, the token the lease was granted under. */
  predicate Matches(l: Lease, token: string) {
    Text.Strip(token) != "" && l.token == Some(Text.Strip(token)) && l.owner.Some? && l.owner.value != ""
  }

  /** Work that is open is leased by a proper request exactly while no lease is in force; token, owner and expiry are
      those of the request. */
  lemma GrantExact(l: Lease, open: bool, req: Request, now: int)
    ensures var r := Grant(l, open, req, now);
      if open && !InForce(l, now) && Proper(req) then
        r == Ok(Lease(Some(req.Token()), Some(Text.Strip(req.owner)), Some(now), Some(now + req.ttl)))
      else r == Err(LeaseError)
    ensures req.Token() == if req.requested in {None, Some("")} then req.minted else req.requested.value
  {
  }

  lemma MayUseExact(l: Lease, open: bool, token: string, now: int)
    ensures MayUse(l, open, token, now, false) <==> open && InForce(l, now) && Matches(l, token)
  {
  }

  /** A heartbeat is accepted exactly from the holder of a lease in force on open work, for a positive time; it moves
      the expiry and nothing else. */
  lemma HeartbeatExact(l: Lease, open: bool, token: string, ttl: int, now: int)
    ensures var r := Heartbeat(l, open, token, ttl, now);
      if open && InForce(l, now) && Matches(l, token) && ttl > 0 then
        r == Ok(Lease(l.token, l.owner, Some(now), Some(now + ttl)))
      else r == Err(LeaseError)
  {
  }

  /** A release is accepted exactly from the holder of a lease on open work, its time up or not, and clears it. */
  lemma ReleaseExact(l: Lease, open: bool, token: string, now: int)
    ensures Release(l, open, token, now) == if open && Matches(l, token) then Ok(Lease(None, None, None, None))
      else Err(LeaseError)
  {
  }

  /** A lease is recovered exactly when its time is up on work still open. */
  lemma ExpiryExact(l: Lease, open: bool, now: int)
    requires WellFormed(l)
    ensures Expired(l, open, now) <==> open && l != NO_LEASE && l.expiresAt.value <= now
    ensures IsLive(l, now) <==> l != NO_LEASE && now < l.expiresAt.value
  {
    hide Text.Strip;
    Text.StripEmpty();
  }

  // ---- one slot over time -----------------------------------------------------

  /** A slot as the lease protocol sees it. */
  datatype Slot = Slot(open: bool, lease: Lease)

  datatype Event =
    | GrantAt(now: int, req: Request)
    | HeartbeatAt(now: int, token: string, ttl: int)
    | ReleaseAt(now: int, token: string, completes: bool)
    | RecoverAt(now: int, closes: bool)              // expiry recovery; an attempt is aborted, a turn reopened
    | CloseAt(now: int, closes: bool, clears: bool)  // the work ends some other way, or the lease is taken away
    | Elsewhere(now: int)                            // an operation on another slot

  datatype Outcome = Outcome(slot: Slot, accepted: bool)

  function Step(s: Slot, e: Event): Outcome {
    match e
    case GrantAt(now, req) =>
      var r := Grant(s.lease, s.open, req, now);
      if r.Ok? then Outcome(s.(lease := r.value), true) else Outcome(s, false)
    case HeartbeatAt(now, token, ttl) =>
      var r := Heartbeat(s.lease, s.open, token, ttl, now);
      if r.Ok? then Outcome(s.(lease := r.value), true) else Outcome(s, false)
    case ReleaseAt(now, token, completes) =>
      var r := Release(s.lease, s.open, token, now);
      if r.Ok? then Outcome(Slot(!completes, r.value), true) else Outcome(s, false)
    case RecoverAt(now, closes) =>
      if Expired(s.lease, s.open, now) then Outcome(Slot(!closes, NO_LEASE), true) else Outcome(s, false)
    case CloseAt(now, closes, clears) =>
      Outcome(Slot(s.open && !closes, if clears then NO_LEASE else s.lease), true)
    case Elsewhere(_) => Outcome(s, false)
  }

  /** The slot before event `k` of a run. */
  function At(s: Slot, run: seq<Event>, k: nat): Slot
    requires k <= |run|
  {
    if k == 0 then s else Step(At(s, run, k - 1), run[k - 1]).slot
  }

  predicate Accepted(s: Slot, run: seq<Event>, k: nat)
    requires k < |run|
  {
    Step(At(s, run, k), run[k]).accepted
  }

  predicate Granted(s: Slot, run: seq<Event>, k: nat)
    requires k < |run|
  {
    run[k].GrantAt? && Accepted(s, run, k)
  }

  /** No two grants of a run hand out tokens that agree up to surrounding white space. A refused request may come again
      with the token it came with. */
  predicate FreshTokens(s: Slot, run: seq<Event>) {
    forall i, j :: 0 <= i < j < |run| && Granted(s, run, i) && Granted(s, run, j) ==>
      Text.Strip(run[i].req.Token()) != Text.Strip(run[j].req.Token())
  }

  /** The event acts on the lease with `token`, up to white space. */
  predicate Presents(e: Event, token: string) {
    (e.HeartbeatAt? || e.ReleaseAt?) && Text.Strip(e.token) == Text.Strip(token)
  }

  predicate Holds(s: Slot, token: string) { s.lease.token == Some(token) }

  /** Event `e` legitimately takes the lease away from the holder of `token`: the holder released it, its last
      expiry has passed, or the work itself was closed. */
  predicate GivesUp(s: Slot, e: Event, token: string) {
    && Holds(s, token)
    && !Holds(Step(s, e).slot, token)
    && (|| (e.ReleaseAt? && Text.Strip(e.token) == token)
        || ((e.RecoverAt? || e.GrantAt?) && s.lease.expiresAt.Some? && s.lease.expiresAt.value <= e.now)
        || (e.CloseAt? && e.clears))
  }

  lemma StepKeepsWellFormed(s: Slot, e: Event)
    requires WellFormed(s.lease)
    ensures WellFormed(Step(s, e).slot.lease)
  {
    hide Text.Strip;
    Text.StripEmpty();
  }

  lemma {:induction false} RunKeepsWellFormed(s: Slot, run: seq<Event>, k: nat)
    requires WellFormed(s.lease) && k <= |run|
    ensures WellFormed(At(s, run, k).lease)
  {
    if k > 0 {
      RunKeepsWellFormed(s, run, k - 1);
      StepKeepsWellFormed(At(s, run, k - 1), run[k - 1]);
    }
  }

  /** A lease that disappears was given up; it never just vanishes. */
  lemma LossIsJustified(s: Slot, e: Event, token: string)
    requires WellFormed(s.lease)
    requires Holds(s, token) && !Holds(Step(s, e).slot, token)
    ensures GivesUp(s, e, token)
  {
    hide Text.Strip;
    Text.StripEmpty();
  }

  /** Walks back from a slot that no longer holds the token to the event that gave it up. */
  lemma {:induction false} FindLoss(s: Slot, run: seq<Event>, token: string, i: nat, j: nat) returns (k: nat)
    requires WellFormed(s.lease)
    requires i < j <= |run|
    requires Holds(At(s, run, i), token) && !Holds(At(s, run, j), token)
    ensures i <= k < j && GivesUp(At(s, run, k), run[k], token)
    decreases j
  {
    hide Text.Strip;
    if Holds(At(s, run, j - 1), token) {
      RunKeepsWellFormed(s, run, j - 1);
      LossIsJustified(At(s, run, j - 1), run[j - 1], token);
      k := j - 1;
    } else {
      k := FindLoss(s, run, token, i, j - 1);
    }
  }

  lemma TokenAfter(s: Slot, e: Event)
    ensures var o := Step(s, e);
      if e.GrantAt? && o.accepted then o.slot.lease.token == Some(e.req.Token())
      else o.slot.lease.token in {None, s.lease.token}
  {
    hide Text.Strip;
  }

  lemma {:induction false} GrantAccepted(s: Slot, run: seq<Event>, k: nat)
    requires k < |run|
    ensures Granted(s, run, k) <==> run[k].GrantAt? && Step(At(s, run, k), run[k]).accepted
  {
  }

  lemma {:induction false} GrantDiffers(s: Slot, run: seq<Event>, i: nat, k: nat)
    requires i < k < |run| && FreshTokens(s, run) && Granted(s, run, i) && run[k].GrantAt?
    requires Step(At(s, run, k), run[k]).accepted
    ensures Text.Strip(run[k].req.Token()) != Text.Strip(run[i].req.Token())
  {
    hide Text.Strip, At, Step;
    assert Granted(s, run, k);
  }

  /** After a later grant, no slot ever holds a token equal to the earlier one up to white space. */
  lemma {:induction false} OldTokenNeverReturns(s: Slot, run: seq<Event>, i: nat, j: nat, m: nat)
    requires i < j < m <= |run| && FreshTokens(s, run)
    requires Granted(s, run, i) && Granted(s, run, j)
    ensures var t := At(s, run, m).lease.token;
      t.Some? ==> Text.Strip(t.value) != Text.Strip(run[i].req.Token())
    decreases m
  {
    hide Text.Strip, Step, FreshTokens, Granted;
    if m > j + 1 { OldTokenNeverReturns(s, run, i, j, m - 1); }
    var before, e := At(s, run, m - 1), run[m - 1];
    assert At(s, run, m) == Step(before, e).slot;
    hide At;
    TokenAfter(before, e);
    if e.GrantAt? && Step(before, e).accepted {
      GrantDiffers(s, run, i, m - 1);
    } else {
      GrantAccepted(s, run, j);
    }
  }

  lemma {:induction false} GrantHolds(s: Slot, run: seq<Event>, i: nat)
    requires i < |run| && Granted(s, run, i)
    ensures Holds(At(s, run, i + 1), run[i].req.Token())
  {
  }

  /** From the second grant on, whoever presents the first token is refused. */
  lemma FirstTokenLockedOut(s: Slot, run: seq<Event>, i: nat, j: nat, m: nat)
    requires i < j < m < |run| && FreshTokens(s, run)
    requires Granted(s, run, i) && Granted(s, run, j)
    requires Presents(run[m], run[i].req.Token())
    ensures !Accepted(s, run, m)
  {
    hide Text.Strip;
    OldTokenNeverReturns(s, run, i, j, m);
    Text.StripIdempotent(run[m].token);
  }

  /** Of two successful grants on one slot, the first lease is given up after it was granted and no later than
      the second grant. */
  lemma FirstLeaseEnds(s: Slot, run: seq<Event>, i: nat, j: nat) returns (k: nat)
    requires WellFormed(s.lease)
    requires i < j < |run| && FreshTokens(s, run) && Granted(s, run, i) && Granted(s, run, j)
    ensures i < k <= j && GivesUp(At(s, run, k), run[k], run[i].req.Token())
  {
    hide Text.Strip, At, Step, GivesUp, Accepted;
    GrantHolds(s, run, i);
    GrantHolds(s, run, j);
    k := FindLoss(s, run, run[i].req.Token(), i + 1, j + 1);
  }

  /** Lease exclusivity. Of two successful grants on one slot, the first lease was released by its holder, had run
      past its last expiry, or was closed in between (or exactly at the second grant, whose time is then past the
      expiry); and from the second grant on the first token can neither extend nor release the lease. */
  lemma {:induction false} LeaseExclusive(s: Slot, run: seq<Event>, i: nat, j: nat)
    requires WellFormed(s.lease)
    requires i < j < |run| && FreshTokens(s, run) && Granted(s, run, i) && Granted(s, run, j)
    ensures exists k :: i < k <= j && GivesUp(At(s, run, k), run[k], run[i].req.Token())
    ensures forall m :: j < m < |run| && Presents(run[m], run[i].req.Token()) ==> !Accepted(s, run, m)
  {
    hide Text.Strip, At, Step, GivesUp, Accepted;
    var k := FirstLeaseEnds(s, run, i, j);
    forall m | j < m < |run| && Presents(run[m], run[i].req.Token())
      ensures !Accepted(s, run, m)
    {
      FirstTokenLockedOut(s, run, i, j, m);
    }
  }

  /** Nothing revives a lease: once its time is up it is never in force again, until a grant. */
  lemma {:induction false} NoRevival(s: Slot, run: seq<Event>, i: nat, j: nat, from: int)
    requires i <= j <= |run| && !InForce(At(s, run, i).lease, from)
    requires forall k :: i <= k < j ==> run[k].now >= from && !Granted(s, run, k)
    ensures forall now :: now >= from ==> !InForce(At(s, run, j).lease, now)
    decreases j
  {
    if i < j {
      NoRevival(s, run, i, j - 1, from);
      StepRevivesNothing(At(s, run, j - 1), run[j - 1], from);
    }
  }

  lemma StepRevivesNothing(s: Slot, e: Event, from: int)
    requires e.now >= from && !(e.GrantAt? && Step(s, e).accepted)
    requires forall now :: now >= from ==> !InForce(s.lease, now)
    ensures forall now :: now >= from ==> !InForce(Step(s, e).slot.lease, now)
  {
    if e.HeartbeatAt? { HeartbeatExact(s.lease, s.open, e.token, e.ttl, e.now); }
    hide Heartbeat, Text.Strip;
  }

  lemma StepStaysClosed(s: Slot, e: Event)
    requires !s.open
    ensures !Step(s, e).slot.open
  {
    hide Text.Strip, IsLive, HasMetadata;
  }

  lemma {:induction false} ClosedStaysClosed(s: Slot, run: seq<Event>, i: nat, m: nat)
    requires i <= m <= |run| && !At(s, run, i).open
    ensures !At(s, run, m).open
    decreases m
  {
    if m > i {
      ClosedStaysClosed(s, run, i, m - 1);
      StepStaysClosed(At(s, run, m - 1), run[m - 1]);
      hide Step;
    }
  }

  /** Work is completed through a release at most once. */
  lemma CompletedOnce(s: Slot, run: seq<Event>, i: nat, j: nat)
    requires i < |run| && j < |run|
    requires run[i].ReleaseAt? && run[i].completes && Accepted(s, run, i)
    requires run[j].ReleaseAt? && run[j].completes && Accepted(s, run, j)
    ensures i == j
  {
    hide Text.Strip;
    if i < j {
      ClosedStaysClosed(s, run, i + 1, j);
    } else if j < i {
      ClosedStaysClosed(s, run, j + 1, i);
    }
  }

  predicate LeavesHolderAlone(e: Event, token: string, until: int) {
    && e.now < until
    && !e.CloseAt?
    && (e.ReleaseAt? ==> Text.Strip(e.token) != token)
    && (e.HeartbeatAt? ==> e.now + e.ttl >= until)
  }

  /** Before its expiry a granted lease shuts every other worker out: whatever happens in between, as long as the
      holder does not release and the work is not closed, any grant attempted before the expiry is refused. */
  lemma {:induction false} HeldUntilExpiry(s: Slot, run: seq<Event>, token: string, until: int, k: nat)
    requires k <= |run| && WellFormed(s.lease)
    requires s.open && Holds(s, token) && s.lease.expiresAt.Some? && until <= s.lease.expiresAt.value
    requires forall m :: 0 <= m < k ==> LeavesHolderAlone(run[m], token, until)
    ensures var t := At(s, run, k);
      t.open && Holds(t, token) && t.lease.expiresAt.Some? && until <= t.lease.expiresAt.value && WellFormed(t.lease)
    ensures forall m :: 0 <= m < k && run[m].GrantAt? ==> !Accepted(s, run, m)
  {
    hide Text.Strip;
    if k > 0 {
      HeldUntilExpiry(s, run, token, until, k - 1);
      var t := At(s, run, k - 1);
      Text.StripEmpty();
      assert IsLive(t.lease, run[k - 1].now);
      StepKeepsWellFormed(t, run[k - 1]);
    }
  }

  /** A granted lease can be given back by presenting its own token exactly when that token carries no
      surrounding white space: the grant stores the token as given, the check strips what is presented. */
  lemma OwnTokenReleasable(l: Lease, req: Request, now: int, later: int)
    requires Grant(l, true, req, now).Ok?
    ensures Release(Grant(l, true, req, now).value, true, req.Token(), later).Ok?
      <==> Text.Strip(req.Token()) == req.Token()
  {
  }
}
