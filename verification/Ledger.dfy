/** The idempotent effect ledger of the reconciliation fixture. */
module Ledger {

  const REVIEWED := "reviewed"
  const PENDING := "pending"

  /** One row of the orders table. */
  datatype Row = Row(orderId: string, version: int, status: string, approved: bool, effects: nat, attempts: nat,
                     unauthorized: nat, invalid: nat)

  /** The arguments of one tool call. */
  datatype Args = Args(operationId: string, orderId: string, targetStatus: string, expectedVersion: int)

  datatype Reply =
    | ApprovalRequired
    | InvalidArguments
    | Applied(orderId: string, version: int, status: string)

  function Inserted(orderId: string, version: int): Row {
    Row(orderId, version, PENDING, false, 0, 0, 0, 0)
  }

  // ---- One transaction ----

  /** Whether a call names this operation, this order, and the version before any effect. */
  predicate Valid(row: Row, id: string, args: Args) {
    && args.operationId == id
    && args.orderId == row.orderId
    && args.targetStatus == REVIEWED
    && args.expectedVersion == row.version - row.effects
  }

  function Replied(row: Row, id: string, args: Args): Reply {
    if !row.approved then ApprovalRequired
    else if !Valid(row, id, args) then InvalidArguments
    else if row.effects == 0 then Applied(row.orderId, row.version + 1, REVIEWED)
    else Applied(row.orderId, row.version, row.status)
  }

  function Attempted(row: Row, id: string, args: Args): Row {
    var counted := row.(attempts := row.attempts + 1);
    if !row.approved then counted.(unauthorized := row.unauthorized + 1)
    else if !Valid(row, id, args) then counted.(invalid := row.invalid + 1)
    else if row.effects == 0 then counted.(effects := 1, version := row.version + 1, status := REVIEWED)
    else counted
  }

  /** The stored row, updated in place. */
  class Order {
    const id: string
    const orderId: string
    var version: int
    var status: string
    var approved: bool
    var effects: nat
    var attempts: nat
    var unauthorized: nat
    var invalid: nat

    ghost function View(): Row
      reads this
    {
      Row(orderId, version, status, approved, effects, attempts, unauthorized, invalid)
    }

    constructor (id: string, orderId: string, version: int)
      ensures this.id == id && View() == Inserted(orderId, version)
    {
      this.id, this.orderId, this.version, status, approved := id, orderId, version, PENDING, false;
      effects, attempts, unauthorized, invalid := 0, 0, 0, 0;
    }

    method Approve()
      modifies this
      ensures View() == old(View()).(approved := true)
    {
      approved := true;
    }

    /** The transaction behind every tool call. */
    method Apply(args: Args) returns (reply: Reply)
      modifies this
      ensures View() == Attempted(old(View()), id, args)
      ensures reply == Replied(old(View()), id, args)
    {
      attempts := attempts + 1;
      if !approved {
        unauthorized := unauthorized + 1;
        return ApprovalRequired;
      }
      if args.operationId != id || args.orderId != orderId || args.targetStatus != REVIEWED
         || args.expectedVersion != version - effects {
        invalid := invalid + 1;
        return InvalidArguments;
      }
      if effects == 0 {
        effects := 1;
        version := version + 1;
        status := REVIEWED;
      }
      reply := Applied(orderId, version, status);
    }
  }

  // ---- Every sequence of approvals and attempts ----

  datatype Step = Approval | Attempt(args: Args)

  function Next(row: Row, id: string, step: Step): Row {
    match step
    case Approval => row.(approved := true)
    case Attempt(args) => Attempted(row, id, args)
  }

  function After(start: Row, id: string, steps: seq<Step>): Row {
    if steps == [] then start else Next(After(start, id, steps[..|steps| - 1]), id, steps[|steps| - 1])
  }

  /** The replies in order, one for each attempt. */
  function Replies(start: Row, id: string, steps: seq<Step>): seq<Reply> {
    if steps == [] then []
    else
      var before := steps[..|steps| - 1];
      Replies(start, id, before)
      + match steps[|steps| - 1]
        case Approval => []
        case Attempt(args) => [Replied(After(start, id, before), id, args)]
  }

  /** What a call must say, told from the inserted row alone. */
  predicate Asks(args: Args, id: string, orderId: string, version: int) {
    args == Args(id, orderId, "reviewed", version)
  }

  /** An approval came before the step at an index. */
  predicate ApprovedBefore(steps: seq<Step>, i: nat)
    requires i <= |steps|
  {
    exists k :: 0 <= k < i && steps[k].Approval?
  }

  predicate Unauthorized(steps: seq<Step>, i: nat)
    requires i < |steps|
  {
    steps[i].Attempt? && !ApprovedBefore(steps, i)
  }

  predicate Accepted(steps: seq<Step>, i: nat, id: string, orderId: string, version: int)
    requires i < |steps|
  {
    steps[i].Attempt? && ApprovedBefore(steps, i) && Asks(steps[i].args, id, orderId, version)
  }

  predicate Refused(steps: seq<Step>, i: nat, id: string, orderId: string, version: int)
    requires i < |steps|
  {
    steps[i].Attempt? && ApprovedBefore(steps, i) && !Asks(steps[i].args, id, orderId, version)
  }

  /** How many attempts, of each kind, a history holds. */
  datatype Tally = Tally(unauthorized: nat, refused: nat, accepted: nat)

  function Count(steps: seq<Step>, id: string, orderId: string, version: int): Tally {
    if steps == [] then Tally(0, 0, 0)
    else
      var n := |steps| - 1;
      var t := Count(steps[..n], id, orderId, version);
      if Unauthorized(steps, n) then t.(unauthorized := t.unauthorized + 1)
      else if Accepted(steps, n, id, orderId, version) then t.(accepted := t.accepted + 1)
      else if Refused(steps, n, id, orderId, version) then t.(refused := t.refused + 1)
      else t
  }

  function TheReply(orderId: string, version: int): Reply {
    Applied(orderId, version + 1, "reviewed")
  }

  /** The row that a history's tally leaves. */
  function RowOf(orderId: string, version: int, approved: bool, t: Tally): Row {
    var effects := if t.accepted > 0 then 1 else 0;
    Row(orderId, version + effects, if effects == 1 then "reviewed" else "pending", approved, effects,
        t.unauthorized + t.refused + t.accepted, t.unauthorized, t.refused)
  }

  /**
   * Exactly once: after any history the effect happened once if any attempt was accepted and never
   * otherwise, version minus effects is the inserted version, and the attempts are the
   * unauthorized, the invalid and the accepted ones, each judged by the inserted row alone.
   */
  lemma {:induction false} RowExact(id: string, orderId: string, version: int, steps: seq<Step>)
    ensures After(Inserted(orderId, version), id, steps)
         == RowOf(orderId, version, ApprovedBefore(steps, |steps|), Count(steps, id, orderId, version))
  {
    if steps != [] {
      var before, step := steps[..|steps| - 1], steps[|steps| - 1];
      RowExact(id, orderId, version, before);
      ApprovedPrefix(steps);
    }
  }

  lemma ApprovedPrefix(steps: seq<Step>)
    requires steps != []
    ensures ApprovedBefore(steps, |steps| - 1) <==> ApprovedBefore(steps[..|steps| - 1], |steps| - 1)
    ensures ApprovedBefore(steps, |steps|) <==> ApprovedBefore(steps, |steps| - 1) || steps[|steps| - 1].Approval?
  {
    var before := steps[..|steps| - 1];
    assert forall k :: 0 <= k < |before| ==> before[k] == steps[k];
  }

  /** However often a call is retried, every accepted attempt gets the same reply. */
  lemma {:induction false} AcceptedRepliesAgree(id: string, orderId: string, version: int, steps: seq<Step>)
    ensures forall reply :: reply in Replies(Inserted(orderId, version), id, steps) && reply.Applied? ==>
      reply == TheReply(orderId, version)
  {
    if steps != [] {
      var before := steps[..|steps| - 1];
      AcceptedRepliesAgree(id, orderId, version, before);
      RowExact(id, orderId, version, before);
    }
  }

  /** An attempt at the end of a history is accepted, and so answered with the effect, exactly as told. */
  lemma ReplyExact(id: string, orderId: string, version: int, steps: seq<Step>, args: Args)
    ensures var reply := Replied(After(Inserted(orderId, version), id, steps), id, args);
      && (reply == ApprovalRequired <==> !ApprovedBefore(steps, |steps|))
      && (reply == TheReply(orderId, version) <==>
            ApprovedBefore(steps, |steps|) && Asks(args, id, orderId, version))
  {
    RowExact(id, orderId, version, steps);
  }

  /** A retry of an accepted attempt changes nothing but the attempt count. */
  lemma RetryIsIdempotent(id: string, orderId: string, version: int, steps: seq<Step>, args: Args)
    requires ApprovedBefore(steps, |steps|) && Asks(args, id, orderId, version)
    ensures var once := After(Inserted(orderId, version), id, steps + [Attempt(args)]);
      Attempted(once, id, args) == once.(attempts := once.attempts + 1)
  {
    assert (steps + [Attempt(args)])[..|steps|] == steps;
    RowExact(id, orderId, version, steps);
  }
}
