/** The runtime session and what each operation of the session service does to it. A session is fetched, changed and put
    back as a whole, so an operation that fails leaves the stored session as it was. */
module Sessions {
  import opened Outcomes
  import opened States
  import opened Leases

  type Output = map<string, string>

  datatype Attempt = Attempt(
    id: string,
    nodeKey: string,
    number: nat,
    status: AttemptStatus,
    finishedAt: Option<int>,
    output: Output,
    error: Option<string>,
    lease: Lease)

  datatype Gate = Gate(id: string, name: string, outcome: GateOutcome, decision: Option<DecisionAction>)

  datatype Node = Node(key: string, status: NodeStatus, attempts: seq<Attempt>, gates: seq<Gate>)

  /** Nodes are kept in the order in which they were added, as the dictionary of the original does. */
  datatype Session = Session(status: SessionStatus, nodes: seq<Node>)

  function FreshNode(key: string): Node { Node(key, NodeQueued, [], []) }

  function FreshAttempt(n: Node, id: string): Attempt {
    Attempt(id, n.key, |n.attempts| + 1, AttemptRunning, None, map[], None, NO_LEASE)
  }

  // ---- finding things -----------------------------------------------------------

  function Find(nodes: seq<Node>, key: string): (r: Option<nat>)
    ensures r.Some? ==> r.value < |nodes| && nodes[r.value].key == key && forall p :: 0 <= p < r.value ==>
      nodes[p].key != key
    ensures r.None? ==> forall p :: 0 <= p < |nodes| ==> nodes[p].key != key
  {
    if nodes == [] then None
    else
      var earlier := Find(nodes[..|nodes| - 1], key);
      if earlier.Some? then earlier else if nodes[|nodes| - 1].key == key then Some(|nodes| - 1) else None
  }

  function AttemptIndex(attempts: seq<Attempt>, id: string): (r: Option<nat>)
    ensures r.Some? ==> r.value < |attempts| && attempts[r.value].id == id && forall i :: 0 <= i < r.value ==>
      attempts[i].id != id
    ensures r.None? ==> forall i :: 0 <= i < |attempts| ==> attempts[i].id != id
  {
    if attempts == [] then None
    else
      var earlier := AttemptIndex(attempts[..|attempts| - 1], id);
      if earlier.Some? then earlier else if attempts[|attempts| - 1].id == id then Some(|attempts| - 1) else None
  }

  function GateIndex(gates: seq<Gate>, id: string): (r: Option<nat>)
    ensures r.Some? ==> r.value < |gates| && gates[r.value].id == id && forall i :: 0 <= i < r.value ==>
      gates[i].id != id
    ensures r.None? ==> forall i :: 0 <= i < |gates| ==> gates[i].id != id
  {
    if gates == [] then None
    else
      var earlier := GateIndex(gates[..|gates| - 1], id);
      if earlier.Some? then earlier else if gates[|gates| - 1].id == id then Some(|gates| - 1) else None
  }

  /** The first node holding an attempt with this id. */
  function NodeOfAttempt(nodes: seq<Node>, id: string): (r: Option<nat>)
    ensures r.Some? ==> r.value < |nodes| && AttemptIndex(nodes[r.value].attempts, id).Some?
    ensures r.Some? ==> forall p :: 0 <= p < r.value ==> AttemptIndex(nodes[p].attempts, id).None?
    ensures r.None? ==> forall p :: 0 <= p < |nodes| ==> AttemptIndex(nodes[p].attempts, id).None?
  {
    if nodes == [] then None
    else
      var earlier := NodeOfAttempt(nodes[..|nodes| - 1], id);
      if earlier.Some? then earlier else if AttemptIndex(nodes[|nodes| - 1].attempts, id).Some? then
        Some(|nodes| - 1) else None
  }

  /** The first node holding a gate with this id. */
  function NodeOfGate(nodes: seq<Node>, id: string): (r: Option<nat>)
    ensures r.Some? ==> r.value < |nodes| && GateIndex(nodes[r.value].gates, id).Some?
    ensures r.Some? ==> forall p :: 0 <= p < r.value ==> GateIndex(nodes[p].gates, id).None?
    ensures r.None? ==> forall p :: 0 <= p < |nodes| ==> GateIndex(nodes[p].gates, id).None?
  {
    if nodes == [] then None
    else
      var earlier := NodeOfGate(nodes[..|nodes| - 1], id);
      if earlier.Some? then earlier else if GateIndex(nodes[|nodes| - 1].gates, id).Some? then Some(|nodes| - 1)
        else None
  }

  /** Every key names one node. */
  ghost predicate UniqueKeys(nodes: seq<Node>) {
    forall p, q :: 0 <= p < q < |nodes| ==> nodes[p].key != nodes[q].key
  }

  lemma {:induction false} FindUnique(nodes: seq<Node>, p: nat)
    requires UniqueKeys(nodes) && p < |nodes|
    ensures Find(nodes, nodes[p].key) == Some(p)
  {
  }

  // ---- one node -------------------------------------------------------------------

  function Moved(n: Node, to: NodeStatus): Result<Node> {
    if to in NodeMoves(n.status) then Ok(n.(status := to)) else Err(InvalidTransition)
  }

  predicate LatestRunning(n: Node) {
    n.attempts != [] && n.attempts[|n.attempts| - 1].status == AttemptRunning
  }

  function Latest(n: Node): Attempt
    requires n.attempts != []
  {
    n.attempts[|n.attempts| - 1]
  }

  function Ended(a: Attempt, to: AttemptStatus, output: Option<Output>, error: Option<string>, now: int): Attempt {
    a.(status := to, finishedAt := Some(now), lease := NO_LEASE,
       output := if output.Some? then output.value else a.output,
       error := if error.Some? then error else a.error)
  }

  /** Ends the latest attempt if it is running, and drops its lease. */
  function EndLatest(n: Node, to: AttemptStatus, output: Option<Output>, error: Option<string>, now: int): Node {
    if LatestRunning(n) then n.(attempts := n.attempts[|n.attempts| - 1 := Ended(Latest(n), to, output, error, now)])
      else n
  }

  function Completed(n: Node, output: Option<Output>, now: int): Result<Node> {
    var m :- Moved(n, NodeCompleted);
    Ok(EndLatest(m, Succeeded, output, None, now))
  }

  function Failed(n: Node, error: string, now: int): Result<Node> {
    var m :- Moved(n, NodeFailed);
    Ok(EndLatest(m, AttemptFailed, None, Some(error), now))
  }

  /** `abort_and_requeue_node`. */
  function Requeued(n: Node, reason: string, now: int): Result<Node> {
    var aborted := EndLatest(n, Aborted, None, Some(reason), now);
    var released :- if aborted.status == PendingGate then Moved(aborted, NeedsRevision) else Ok(aborted);
    if released.status == NodeQueued then Ok(released) else Moved(released, NodeQueued)
  }

  const LEASE_EXPIRED := "execution lease expired"

  predicate HasExpiredExecution(n: Node, now: int) {
    n.status == NodeRunning && LatestRunning(n) && HasMetadata(Latest(n).lease) && !IsLive(Latest(n).lease, now)
  }

  function RecoveredNode(n: Node, now: int): Node {
    if HasExpiredExecution(n, now) then EndLatest(n, Aborted, None, Some(LEASE_EXPIRED), now).(status := NodeQueued)
      else n
  }

  function Attempted(n: Node, id: string): Node {
    n.(attempts := n.attempts + [FreshAttempt(n, id)])
  }

  function Gated(n: Node, gate: Gate): Node {
    n.(gates := n.gates + [gate])
  }

  function Decided(n: Node, gateId: string, action: DecisionAction): Result<Node>
    requires GateIndex(n.gates, gateId).Some?
  {
    var i := GateIndex(n.gates, gateId).value;
    Moved(n.(gates := n.gates[i := n.gates[i].(decision := Some(action))]), DecisionTarget(action))
  }

  function Reported(a: Attempt, output: Output, error: Option<string>): Attempt {
    a.(output := a.output + output, error := if Truthy(error) then error else a.error)
  }

  /** `_find_running_attempt`. */
  function RunningAttempt(n: Node, executionId: Option<string>): (r: Option<nat>)
    ensures r.Some? ==> r.value < |n.attempts| && n.attempts[r.value].status == AttemptRunning
  {
    match executionId
    case Some(id) =>
      var i := AttemptIndex(n.attempts, id);
      if i.Some? && n.attempts[i.value].status == AttemptRunning then i else None
    case None => if LatestRunning(n) then Some(|n.attempts| - 1) else None
  }

  /** `consume_agent_report`: onto the running attempt, or onto a new one opened for it. */
  function Consumed(n: Node, executionId: Option<string>, output: Output, error: Option<string>, newId: string): Node {
    var i := RunningAttempt(n, executionId);
    if i.Some? then n.(attempts := n.attempts[i.value := Reported(n.attempts[i.value], output, error)])
    else n.(attempts := n.attempts + [Reported(FreshAttempt(n, newId), output, error)])
  }

  // ---- one session ------------------------------------------------------------------

  /** Fetch a node, change it, put it back. */
  function OnNode(s: Session, key: string, change: Node -> Result<Node>): Result<Session> {
    var p := Find(s.nodes, key);
    if p.None? then Err(NodeNotFound)
    else
      var n :- change(s.nodes[p.value]);
      Ok(s.(nodes := s.nodes[p.value := n]))
  }

  /** Find an attempt by id, change its lease, put it back. */
  function OnLease(s: Session, id: string, change: Attempt -> Result<Lease>): Result<Session> {
    var p := NodeOfAttempt(s.nodes, id);
    if p.None? then Err(LeaseError)
    else
      var n := s.nodes[p.value];
      var i := AttemptIndex(n.attempts, id).value;
      var l :- change(n.attempts[i]);
      Ok(s.(nodes := s.nodes[p.value := n.(attempts := n.attempts[i := n.attempts[i].(lease := l)])]))
  }

  function Unleased(n: Node): (r: Node)
    ensures r.key == n.key && r.status == n.status && r.gates == n.gates && |r.attempts| == |n.attempts|
    ensures forall i :: 0 <= i < |n.attempts| ==> r.attempts[i] == n.attempts[i].(lease := NO_LEASE)
  {
    n.(attempts := seq(|n.attempts|, i requires 0 <= i < |n.attempts| => n.attempts[i].(lease := NO_LEASE)))
  }

  /** A move of the session itself; the end of a session takes every execution lease away. */
  function MoveSession(s: Session, to: SessionStatus): Result<Session> {
    if to !in SessionMoves(s.status) then Err(InvalidTransition)
    else if IsTerminal(to) then Ok(Session(to, seq(|s.nodes|, p requires 0 <= p < |s.nodes| => Unleased(s.nodes[p]))))
    else Ok(s.(status := to))
  }

  /** A fresh node for every key that has none yet. */
  function AppendNew(nodes: seq<Node>, keys: seq<string>): (r: seq<Node>)
    ensures |nodes| <= |r| && r[..|nodes|] == nodes
    ensures forall p :: |nodes| <= p < |r| ==> r[p] == FreshNode(r[p].key) && r[p].key in keys
  {
    if keys == [] then nodes
    else
      var earlier := AppendNew(nodes, keys[..|keys| - 1]);
      if Find(earlier, keys[|keys| - 1]).Some? then earlier else earlier + [FreshNode(keys[|keys| - 1])]
  }

  lemma {:induction false} AppendNewUnique(nodes: seq<Node>, keys: seq<string>)
    requires UniqueKeys(nodes)
    ensures UniqueKeys(AppendNew(nodes, keys))
    ensures forall k :: k in keys ==> Find(AppendNew(nodes, keys), k).Some?
  {
    hide Find;
    if keys != [] {
      AppendNewUnique(nodes, keys[..|keys| - 1]);
      forall k | k in keys ensures Find(AppendNew(nodes, keys), k).Some? {
        FoundAfterAppend(AppendNew(nodes, keys[..|keys| - 1]), FreshNode(keys[|keys| - 1]), k);
      }
    }
  }

  lemma {:induction false} FoundAfterAppend(nodes: seq<Node>, n: Node, k: string)
    ensures Find(nodes + [n], k) == if Find(nodes, k).Some? then Find(nodes, k) else if n.key == k then Some(|nodes|)
      else None
  {
  }

  function AddNodes(s: Session, keys: seq<string>): Result<Session> {
    if exists i :: 0 <= i < |keys| && Find(s.nodes, keys[i]).Some? then Err(ValueError)
    else Ok(s.(nodes := AppendNew(s.nodes, keys)))
  }

  function Create(keys: seq<string>): Session { Session(SessionQueued, AppendNew([], keys)) }

  function MoveNode(s: Session, key: string, to: NodeStatus): Result<Session> {
    OnNode(s, key, (n: Node) => Moved(n, to))
  }

  function CompleteNode(s: Session, key: string, output: Option<Output>, now: int): Result<Session> {
    OnNode(s, key, (n: Node) => Completed(n, output, now))
  }

  function FailNode(s: Session, key: string, error: string, now: int): Result<Session> {
    OnNode(s, key, (n: Node) => Failed(n, error, now))
  }

  function RequeueNode(s: Session, key: string, reason: string, now: int): Result<Session> {
    OnNode(s, key, (n: Node) => Requeued(n, reason, now))
  }

  function StartAttempt(s: Session, key: string, id: string): Result<Session> {
    OnNode(s, key, (n: Node) => Ok(Attempted(n, id)))
  }

  function RecoverExpired(s: Session, now: int): Session {
    s.(nodes := seq(|s.nodes|, p requires 0 <= p < |s.nodes| => RecoveredNode(s.nodes[p], now)))
  }

  function GrantLease(s: Session, key: string, id: string, req: Request, now: int): Result<Session> {
    OnLease(s, id, (a: Attempt) => if a.nodeKey != key then Err(LeaseError)
      else Grant(a.lease, a.status == AttemptRunning, req, now))
  }

  function HeartbeatLease(s: Session, id: string, token: string, ttl: int, now: int): Result<Session> {
    OnLease(s, id, (a: Attempt) => Heartbeat(a.lease, a.status == AttemptRunning, token, ttl, now))
  }

  function ReleaseLease(s: Session, id: string, token: string, now: int): Result<Session> {
    OnLease(s, id, (a: Attempt) => Release(a.lease, a.status == AttemptRunning, token, now))
  }

  function RecordGate(s: Session, key: string, gate: Gate): Result<Session> {
    OnNode(s, key, (n: Node) => Ok(Gated(n, gate)))
  }

  function DecideGate(s: Session, gateId: string, action: DecisionAction): Result<Session> {
    var p := NodeOfGate(s.nodes, gateId);
    if p.None? then Err(GateNotFound)
    else
      var n :- Decided(s.nodes[p.value], gateId, action);
      Ok(s.(nodes := s.nodes[p.value := n]))
  }

  function ConsumeReport(s: Session, key: string, executionId: Option<string>, output: Output, error: Option<string>,
                         newId: string): Result<Session> {
    OnNode(s, key, (n: Node) => Ok(Consumed(n, executionId, output, error, newId)))
  }
}
