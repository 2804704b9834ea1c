/** Several approvals of one workflow at once, over one durable log. Calls are numbered as they are made,
    so the log may have gaps when the process dies; a run from the top starts numbering again. */
module ParallelGates {
  import opened JsonValues
  import opened HumanGateModel
  import opened HumanGateProofs

  /** A branch's call in hand: none, numbered, or executed and not yet recorded. */
  datatype Held = Idle | Called(id: nat) | Ran(number: nat, reply: Reply)

  /** One approval in this run: what it has learnt, how many calls have returned, and the one in hand. */
  datatype Branch = Branch(inputs: Inputs, pos: nat, held: Held)

  /** What outlives the process, then the process: the next number, the branches, and whether a branch met
      another call than the one on record. */
  datatype State = State(world: World, log: map<nat, Entry>, next: nat, branches: seq<Branch>, diverged: bool)

  const BLANK: Inputs := Inputs(false, 0, Null, 0, 0, 0)

  function Fresh(count: nat): (r: seq<Branch>)
    ensures |r| == count && forall b :: 0 <= b < count ==> r[b] == Branch(BLANK, 0, Idle)
  {
    seq(count, _ => Branch(BLANK, 0, Idle))
  }

  function Start(args: seq<Args>, world: World): State { State(world, map[], 0, Fresh(|args|), false) }

  /** What can happen next; the outside says the time and what is in the mailbox. */
  datatype Move = Call(who: nat) | Execute(runner: nat, time: nat, message: Json) | Record(writer: nat) | Die

  function CallOf(a: Args, b: Branch): Op { OpAt(a, b.inputs, b.pos) }

  predicate IsOver(b: Branch) { b.held.Idle? && b.pos >= Length(b.inputs) }

  function Answer(world: World, a: Args, op: Op, time: nat, message: Json): Reply {
    match op
    case WasPromptEmitted(_, _) => Flag(PromptKey(a.gate) in world.events)
    case GetTimestamp => Time(time)
    case Recv(_, _) => Message(message)
    case _ => Unit
  }

  function Returns(b: Branch, reply: Reply): Branch { Branch(WithReply(b.inputs, b.pos, reply), b.pos + 1, Idle) }

  /** A move that cannot happen is skipped; a branch that has diverged makes no further step. */
  function After(args: seq<Args>, s: State, move: Move): State
    requires |s.branches| == |args|
    ensures |After(args, s, move).branches| == |args|
  {
    match move
    case Die => s.(next := 0, branches := Fresh(|args|))
    case Call(b) =>
      if s.diverged || b >= |args| || !s.branches[b].held.Idle? || IsOver(s.branches[b]) then s
      else s.(next := s.next + 1, branches := s.branches[b := s.branches[b].(held := Called(s.next))])
    case Execute(b, time, message) =>
      if s.diverged || b >= |args| || !s.branches[b].held.Called? then s
      else
        var id, op := s.branches[b].held.id, CallOf(args[b], s.branches[b]);
        if id in s.log then
          if s.log[id].op == op then s.(branches := s.branches[b := Returns(s.branches[b], s.log[id].reply)])
          else s.(diverged := true)
        else
          s.(world := Effect(s.world, op),
             branches := s.branches[b := s.branches[b].(held := Ran(id, Answer(s.world, args[b], op, time, message)))])
    case Record(b) =>
      if s.diverged || b >= |args| || !s.branches[b].held.Ran? then s
      else
        var held := s.branches[b].held;
        s.(log := s.log[held.number := Entry(CallOf(args[b], s.branches[b]), held.reply)],
           branches := s.branches[b := Returns(s.branches[b], held.reply)])
  }

  /** Any number of runs, each cut off by a `Die`. */
  function Run(args: seq<Args>, s: State, moves: seq<Move>): (r: State)
    requires |s.branches| == |args|
    ensures |r.branches| == |args|
    decreases |moves|
  {
    if moves == [] then s else Run(args, After(args, s, moves[0]), moves[1..])
  }

  /** The number a call gets is that of the branch the order names: every run makes its calls in one order. */
  predicate KeepsOrder(args: seq<Args>, s: State, moves: seq<Move>, order: nat -> nat)
    requires |s.branches| == |args|
    decreases |moves|
  {
    moves == [] || (
      && (moves[0].Call? && After(args, s, moves[0]) != s ==> order(s.next) == moves[0].who)
      && KeepsOrder(args, After(args, s, moves[0]), moves[1..], order))
  }

  /** One workflow's gates, whose event keys are all different. */
  predicate Apart(a: Args, b: Args) {
    && a.workflowId == b.workflowId && a.gateKey != b.gateKey
    && a.gate != b.gate && !Extends(a.gate, b.gate) && !Extends(b.gate, a.gate)
  }

  predicate AllApart(args: seq<Args>) { forall i, j :: 0 <= i < |args| && 0 <= j < |args| && i != j ==> Apart(args[i], args[j]) }
}
