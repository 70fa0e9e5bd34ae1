/** Transactional blocks and deferred hooks, as a small language: what running any nesting of blocks, deferrals,
    failures and commits does. */
module Transactions {
  import opened Prelude

  /** What is raised: an ordinary exception, or a cancellation, which handlers for exceptions let pass. */
  datatype Failure = Error | Cancel

  datatype Stmt =
    | Skip
    | Raise(failure: Failure)
    | Then(first: Stmt, second: Stmt)
    | Attempt(tried: Stmt)   // an ordinary exception out of it is caught
    | Defer(hook: Stmt)
    | Transactional(body: Stmt, commit: Option<Failure>, rollback: Option<Failure>)   // what the session's calls raise

  /** A hook in the list of the block that registered it; tickets number the registrations. */
  datatype Hook = Hook(ticket: nat, action: Stmt)

  datatype Block = Block(id: nat, hooks: seq<Hook>)

  datatype Event =
    | Registered(block: nat, ticket: nat)
    | Committed(block: nat)
    | RolledBack(block: nat)
    | Ran(block: nat, ticket: nat)
    | Cancelled(block: nat, ticket: nat)   // the hook ended in a cancellation

  /** `current` is the context variable: the innermost open block. */
  datatype Context = Context(current: Option<Block>, nextBlock: nat, nextTicket: nat, log: seq<Event>)

  const START := Context(None, 0, 0, [])

  // ---------------------------------------------------------------- size

  function Size(s: Stmt): (n: nat)
    ensures n > 0
  {
    match s
    case Skip => 1
    case Raise(_) => 1
    case Then(a, b) => 1 + Size(a) + Size(b)
    case Attempt(a) => 1 + Size(a)
    case Defer(h) => 1 + Size(h)
    case Transactional(body, _, _) => 1 + Size(body)
  }

  function Weight(hooks: seq<Hook>): nat {
    if hooks == [] then 0 else Size(hooks[0].action) + Weight(hooks[1..])
  }

  lemma {:induction false} WeightAppend(a: seq<Hook>, b: seq<Hook>)
    ensures Weight(a + b) == Weight(a) + Weight(b)
  {
    if a == [] {
      assert a + b == b;
    } else {
      assert (a + b)[1..] == a[1..] + b;
      WeightAppend(a[1..], b);
    }
  }

  /** From c to d the innermost block stayed the same and at most `budget` was added to its list. */
  ghost predicate Grew(c: Context, d: Context, budget: nat) {
    match c.current
    case None => d.current.None?
    case Some(block) =>
      && d.current.Some? && d.current.value.id == block.id
      && block.hooks <= d.current.value.hooks
      && Weight(d.current.value.hooks) <= Weight(block.hooks) + budget
  }

  // ---------------------------------------------------------------- what running a statement does

  function Note(c: Context, e: Event): Context {
    c.(log := c.log + [e])
  }

  function Deferred(c: Context, hook: Stmt): Context
    requires c.current.Some?
  {
    var block := c.current.value;
    Note(c.(current := Some(block.(hooks := block.hooks + [Hook(c.nextTicket, hook)])), nextTicket := c.nextTicket + 1),
      Registered(block.id, c.nextTicket))
  }

  function Opened(c: Context): Context {
    c.(current := Some(Block(c.nextBlock, [])), nextBlock := c.nextBlock + 1)
  }

  /** Rolling back may itself raise. */
  function RollBack(c: Context, id: nat, rollback: Option<Failure>): (Context, Option<Failure>) {
    (Note(c, RolledBack(id)), Some(if rollback.Some? then rollback.value else Error))
  }

  function Exec(s: Stmt, c: Context): (r: (Context, Option<Failure>))
    ensures Grew(c, r.0, Size(s))
    decreases Size(s), 0
  {
    match s
    case Skip => (c, None)
    case Raise(f) => (c, Some(f))
    case Then(a, b) =>
      var (d, f) := Exec(a, c);
      if f.Some? then (d, f) else Exec(b, d)
    case Attempt(a) =>
      var (d, f) := Exec(a, c);
      (d, if f == Some(Error) then None else f)
    case Defer(hook) =>
      if c.current.None? then (c, Some(Error))
      else
        WeightAppend(c.current.value.hooks, [Hook(c.nextTicket, hook)]);
        (Deferred(c, hook), None)
    case Transactional(body, commit, rollback) =>
      var (d, f) := Exec(body, Opened(c));
      var hooks := d.current.value.hooks;
      var outer := d.(current := c.current);
      var ending := if f.Some? then f else commit;
      if ending.None? then RunHooks(hooks, c.nextBlock, Note(outer, Committed(c.nextBlock)))
      else if ending == Some(Error) then RollBack(outer, c.nextBlock, rollback)
      else (outer, ending)
  }

  /** The hooks of a committed block, in the context of the block around it. */
  function RunHooks(hooks: seq<Hook>, id: nat, c: Context): (r: (Context, Option<Failure>))
    ensures Grew(c, r.0, Weight(hooks))
    ensures r.1 != Some(Error)
    decreases Weight(hooks), 1
  {
    if hooks == [] then (c, None)
    else
      var (d, f) := Exec(hooks[0].action, Note(c, Ran(id, hooks[0].ticket)));
      if f == Some(Cancel) then (Note(d, Cancelled(id, hooks[0].ticket)), f)
      else RunHooks(hooks[1..], id, d)
  }

  // ---------------------------------------------------------------- the implementation

  class Runtime {
    var current: Option<Block>
    var nextBlock: nat
    var nextTicket: nat
    var log: seq<Event>

    ghost function State(): Context
      reads this
    {
      Context(current, nextBlock, nextTicket, log)
    }

    constructor ()
      ensures State() == START
    {
      current, nextBlock, nextTicket, log := None, 0, 0, [];
    }

    method DeferAfterCommit(hook: Stmt) returns (failure: Option<Failure>)
      modifies this
      ensures (State(), failure) == Exec(Defer(hook), old(State()))
    {
      if current.None? {
        return Some(Error);
      }
      var block := current.value;
      current := Some(Block(block.id, block.hooks + [Hook(nextTicket, hook)]));
      log := log + [Registered(block.id, nextTicket)];
      nextTicket := nextTicket + 1;
      failure := None;
    }

    /** The loop over a committed block's hooks: an ordinary exception is logged and forgotten. */
    method RunPostCommitHooks(hooks: seq<Hook>, id: nat) returns (failure: Option<Failure>)
      modifies this
      ensures (State(), failure) == RunHooks(hooks, id, old(State()))
      decreases Weight(hooks), 1
    {
      failure := None;
      var i := 0;
      assert hooks[0..] == hooks;
      while i < |hooks|
        invariant 0 <= i <= |hooks| && failure.None?
        invariant RunHooks(hooks, id, old(State())) == RunHooks(hooks[i..], id, State())
        invariant Weight(hooks[i..]) <= Weight(hooks)
      {
        log := log + [Ran(id, hooks[i].ticket)];
        assert hooks[i..][1..] == hooks[i + 1..];
        failure := Run(hooks[i].action);
        if failure == Some(Cancel) {
          log := log + [Cancelled(id, hooks[i].ticket)];
          return;
        }
        failure := None;
        i := i + 1;
      }
    }

    method RunBlock(body: Stmt, commit: Option<Failure>, rollback: Option<Failure>) returns (failure: Option<Failure>)
      modifies this
      ensures (State(), failure) == Exec(Transactional(body, commit, rollback), old(State()))
      decreases Size(body), 2
    {
      var outer, id := current, nextBlock;
      current := Some(Block(id, []));
      nextBlock := nextBlock + 1;
      assert State() == Opened(old(State()));
      var committed := false;
      failure := Run(body);
      if failure.None? {
        failure := commit;
        committed := failure.None?;
      }
      var hooks := current.value.hooks;
      current := outer;
      if failure == Some(Error) {
        log := log + [RolledBack(id)];
        failure := Some(if rollback.Some? then rollback.value else Error);
      }
      if committed {
        log := log + [Committed(id)];
        failure := RunPostCommitHooks(hooks, id);
      }
    }

    method Run(s: Stmt) returns (failure: Option<Failure>)
      modifies this
      ensures (State(), failure) == Exec(s, old(State()))
      decreases Size(s), 0
    {
      failure := None;
      match s
      case Skip =>
      case Raise(f) => failure := Some(f);
      case Then(a, b) =>
        failure := Run(a);
        if failure.None? {
          failure := Run(b);
        }
      case Attempt(a) =>
        failure := Run(a);
        if failure == Some(Error) {
          failure := None;
        }
      case Defer(hook) => failure := DeferAfterCommit(hook);
      case Transactional(body, commit, rollback) => failure := RunBlock(body, commit, rollback);
    }
  }
}
