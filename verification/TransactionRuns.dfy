/** What every run of transactional blocks and deferred hooks keeps: the life of each block in the log. */
module TransactionRuns {
  import opened Prelude
  import opened Transactions

  // ---------------------------------------------------------------- the life of a block

  /** What the log says of one block, in order. */
  function View(log: seq<Event>, id: nat): seq<Event> {
    if log == [] then []
    else View(log[..|log| - 1], id) + if log[|log| - 1].block == id then [log[|log| - 1]] else []
  }

  function Tickets(hooks: seq<Hook>): seq<nat> {
    seq(|hooks|, i requires 0 <= i < |hooks| => hooks[i].ticket)
  }

  function Registrations(id: nat, tickets: seq<nat>): seq<Event> {
    seq(|tickets|, i requires 0 <= i < |tickets| => Registered(id, tickets[i]))
  }

  function Runs(id: nat, tickets: seq<nat>): seq<Event> {
    seq(|tickets|, i requires 0 <= i < |tickets| => Ran(id, tickets[i]))
  }

  /** How a block ends: left by a cancellation, rolled back, committed with all its hooks run, or committed and
      the hooks cut short by the cancellation of the n-th. */
  datatype Ending = Abandoned | Undone | AllRan | CutAfter(n: nat)

  predicate Increasing(tickets: seq<nat>) {
    forall i, j :: 0 <= i < j < |tickets| ==> tickets[i] < tickets[j]
  }

  /** Registrations in order, then nothing, or a rollback, or the commit and after it the hooks in the order of
      their registration. */
  predicate IsLife(view: seq<Event>, id: nat, tickets: seq<nat>, ending: Ending) {
    Increasing(tickets) &&
    match ending
    case Abandoned => view == Registrations(id, tickets)
    case Undone => view == Registrations(id, tickets) + [RolledBack(id)]
    case AllRan => view == Registrations(id, tickets) + [Committed(id)] + Runs(id, tickets)
    case CutAfter(n) =>
      && 0 < n <= |tickets|
      && view == Registrations(id, tickets) + [Committed(id)] + Runs(id, tickets[..n]) + [Cancelled(id, tickets[n - 1])]
  }

  ghost predicate Lived(log: seq<Event>, id: nat) {
    exists tickets, ending :: IsLife(View(log, id), id, tickets, ending)
  }

  // ---------------------------------------------------------------- what one statement may do to the log

  ghost predicate Sound(c: Context) {
    && (forall id: nat :: id >= c.nextBlock ==> View(c.log, id) == [])
    && (c.current.Some? ==>
          && c.current.value.id < c.nextBlock
          && Increasing(Tickets(c.current.value.hooks))
          && forall h :: h in c.current.value.hooks ==> h.ticket < c.nextTicket)
  }

  predicate IsCurrent(c: Context, id: nat) {
    c.current.Some? && c.current.value.id == id
  }

  /** Older blocks are untouched, but for the innermost, to which registrations are added, and for those in
      `running`; and every new block has lived its life. */
  ghost predicate Effect(c: Context, d: Context, running: set<nat>) {
    && Sound(d) && c.nextBlock <= d.nextBlock && c.nextTicket <= d.nextTicket
    && (forall id: nat :: id < c.nextBlock && id !in running && !IsCurrent(c, id) ==> View(d.log, id) == View(c.log, id))
    && (c.current.None? ==> d.current.None?)
    && (c.current.Some? ==> Extends(c, d))
    && (forall id :: c.nextBlock <= id < d.nextBlock ==> Lived(d.log, id))
  }

  ghost predicate Extends(c: Context, d: Context)
    requires c.current.Some?
  {
    var block := c.current.value;
    && d.current.Some? && d.current.value.id == block.id
    && block.hooks <= d.current.value.hooks
    && View(d.log, block.id) == View(c.log, block.id) + Registrations(block.id, Tickets(d.current.value.hooks[|block.hooks|..]))
  }

  lemma ViewNote(c: Context, e: Event, id: nat)
    ensures View(Note(c, e).log, id) == View(c.log, id) + if e.block == id then [e] else []
  {
    assert (c.log + [e])[..|c.log|] == c.log;
  }

  lemma TicketsSplit(a: seq<Hook>, b: seq<Hook>)
    ensures Tickets(a + b) == Tickets(a) + Tickets(b)
  {
  }

  lemma RegistrationsSplit(id: nat, a: seq<nat>, b: seq<nat>)
    ensures Registrations(id, a + b) == Registrations(id, a) + Registrations(id, b)
  {
  }

  lemma ExtendsThen(c: Context, d: Context, e: Context)
    requires c.current.Some? && Extends(c, d) && Extends(d, e)
    ensures Extends(c, e)
  {
    var id, x, y, z := c.current.value.id, c.current.value.hooks, d.current.value.hooks, e.current.value.hooks;
    var first, second := y[|x|..], z[|y|..];
    assert z[|x|..] == first + second;
    TicketsSplit(first, second);
    RegistrationsSplit(id, Tickets(first), Tickets(second));
  }

  lemma EffectThen(c: Context, d: Context, e: Context, running: set<nat>)
    requires Sound(c) && Effect(c, d, running) && Effect(d, e, running)
    requires forall id :: id in running ==> id < c.nextBlock
    ensures Effect(c, e, running)
  {
    hide View, Extends;
    if c.current.Some? {
      assert d.current.value.id == c.current.value.id by { SameBlock(c, d); }
      ExtendsThen(c, d, e);
    }
    forall id | c.nextBlock <= id < e.nextBlock ensures Lived(e.log, id) {
      if id < d.nextBlock {
        assert Lived(d.log, id);
        assert !IsCurrent(d, id) by {
          if c.current.Some? {
            SameBlock(c, d);
          }
        }
        assert View(e.log, id) == View(d.log, id);
      }
    }
    forall id: nat | id < c.nextBlock && id !in running && !IsCurrent(c, id) ensures View(e.log, id) == View(c.log, id) {
      if c.current.Some? {
        SameBlock(c, d);
      }
      assert !IsCurrent(d, id);
    }
  }

  lemma SameBlock(c: Context, d: Context)
    requires c.current.Some? && Extends(c, d)
    ensures d.current.Some? && d.current.value.id == c.current.value.id
  {
  }

  lemma NothingHappened(c: Context)
    requires Sound(c)
    ensures Effect(c, c, {})
  {
    if c.current.Some? {
      var block := c.current.value;
      assert Registrations(block.id, Tickets(block.hooks[|block.hooks|..])) == [];
    }
  }

  /** An event of a block in `running` may be noted. */
  lemma NoteEffect(c: Context, e: Event, running: set<nat>)
    requires Sound(c) && e.block in running && e.block < c.nextBlock && !IsCurrent(c, e.block)
    ensures Effect(c, Note(c, e), running)
  {
    hide View;
    forall id: nat ensures View(Note(c, e).log, id) == View(c.log, id) + if e.block == id then [e] else [] {
      ViewNote(c, e, id);
    }
    if c.current.Some? {
      var block := c.current.value;
      assert Registrations(block.id, Tickets(block.hooks[|block.hooks|..])) == [];
    }
  }

  lemma DeferEffect(c: Context, hook: Stmt)
    requires Sound(c) && c.current.Some?
    ensures Effect(c, Deferred(c, hook), {})
  {
    hide View;
    var block, d := c.current.value, Deferred(c, hook);
    var e := Registered(block.id, c.nextTicket);
    forall id: nat ensures View(d.log, id) == View(c.log, id) + if block.id == id then [e] else [] {
      ViewNote(c, e, id);
    }
    var added := [Hook(c.nextTicket, hook)];
    assert d.current.value.hooks[|block.hooks|..] == added;
    assert Registrations(block.id, Tickets(added)) == [e];
    TicketsSplit(block.hooks, added);
  }

  /** A block that is left: to the context around it, its life is one more. */
  lemma CloseBlock(c: Context, d: Context, e: Context)
    requires Sound(c) && Effect(Opened(c), d, {}) && Sound(d.(current := c.current))
    requires Effect(d.(current := c.current), e, {c.nextBlock}) && Lived(e.log, c.nextBlock)
    ensures Effect(c, e, {})
  {
    hide View;
    var o := d.(current := c.current);
    forall id: nat | id < c.nextBlock ensures View(o.log, id) == View(c.log, id) {
      assert !IsCurrent(Opened(c), id);
    }
    forall id | c.nextBlock <= id < e.nextBlock ensures Lived(e.log, id) {
      if c.nextBlock < id < d.nextBlock {
        assert Lived(d.log, id);
        assert View(e.log, id) == View(o.log, id);
      }
    }
  }

  // ---------------------------------------------------------------- every statement

  lemma OpenedIsSound(c: Context)
    requires Sound(c)
    ensures Sound(Opened(c)) && View(c.log, c.nextBlock) == []
  {
  }

  /** What the body of a block leaves: its registrations. */
  lemma BodyRegisters(c: Context, d: Context)
    requires Sound(c) && Effect(Opened(c), d, {})
    ensures d.current.Some? && Increasing(Tickets(d.current.value.hooks)) && c.nextBlock < d.nextBlock
    ensures View(d.log, c.nextBlock) == Registrations(c.nextBlock, Tickets(d.current.value.hooks))
    ensures Sound(d.(current := c.current))
  {
    assert Extends(Opened(c), d);
    assert d.current.value.hooks[0..] == d.current.value.hooks;
  }

  /** What the hooks of a committed block add to its view. */
  ghost predicate RanHooks(c: Context, d: Context, id: nat, tickets: seq<nat>, f: Option<Failure>) {
    if f.None? then View(d.log, id) == View(c.log, id) + Runs(id, tickets)
    else exists n :: Cut(View(c.log, id), View(d.log, id), id, tickets, n)
  }

  predicate Cut(before: seq<Event>, after: seq<Event>, id: nat, tickets: seq<nat>, n: nat) {
    0 < n <= |tickets| && after == before + Runs(id, tickets[..n]) + [Cancelled(id, tickets[n - 1])]
  }

  lemma OneRan(c: Context, c1: Context, d: Context, id: nat, ticket: nat, rest: seq<nat>, f: Option<Failure>)
    requires View(c1.log, id) == View(c.log, id) + [Ran(id, ticket)] && RanHooks(c1, d, id, rest, f)
    ensures RanHooks(c, d, id, [ticket] + rest, f)
  {
    hide View;
    if f.None? {
      assert Runs(id, [ticket] + rest) == [Ran(id, ticket)] + Runs(id, rest);
    } else {
      var n: nat :| Cut(View(c1.log, id), View(d.log, id), id, rest, n);
      assert ([ticket] + rest)[..n + 1] == [ticket] + rest[..n];
      assert Runs(id, [ticket] + rest[..n]) == [Ran(id, ticket)] + Runs(id, rest[..n]);
      assert Cut(View(c.log, id), View(d.log, id), id, [ticket] + rest, n + 1);
    }
  }

  lemma {:induction false} ExecEffect(s: Stmt, c: Context)
    requires Sound(c)
    ensures Effect(c, Exec(s, c).0, {})
    decreases Size(s), 0
  {
    hide Effect, Sound;
    NothingHappened(c);
    match s
    case Skip =>
    case Raise(_) =>
    case Then(a, b) =>
      var (d, f) := Exec(a, c);
      ExecEffect(a, c);
      if f.None? {
        EffectIsSound(c, d, {});
        ExecEffect(b, d);
        EffectThen(c, d, Exec(b, d).0, {});
      }
    case Attempt(a) => ExecEffect(a, c);
    case Defer(hook) =>
      if c.current.Some? {
        DeferEffect(c, hook);
      }
    case Transactional(body, commit, rollback) => BlockEffect(body, commit, rollback, c);
  }

  lemma EffectIsSound(c: Context, d: Context, running: set<nat>)
    requires Effect(c, d, running)
    ensures Sound(d) && c.nextBlock <= d.nextBlock && (c.current.None? ==> d.current.None?)
    ensures c.current.Some? ==> d.current.Some? && d.current.value.id == c.current.value.id
  {
  }

  lemma {:induction false} BlockEffect(body: Stmt, commit: Option<Failure>, rollback: Option<Failure>, c: Context)
    requires Sound(c)
    ensures Effect(c, Exec(Transactional(body, commit, rollback), c).0, {})
    decreases Size(body), 3
  {
    hide Effect, Sound, View;
    var id := c.nextBlock;
    var (d, f) := Exec(body, Opened(c));
    var (e, g) := Exec(Transactional(body, commit, rollback), c);
    OpenedIsSound(c);
    ExecEffect(body, Opened(c));
    BodyRegisters(c, d);
    var outer, hooks, ending := d.(current := c.current), d.current.value.hooks, if f.Some? then f else commit;
    AroundIsOther(c);
    if ending.None? {
      var start := Note(outer, Committed(id));
      NoteEffect(outer, Committed(id), {id});
      ViewNote(outer, Committed(id), id);
      EffectIsSound(outer, start, {id});
      RunHooksEffect(hooks, id, start);
      EffectThen(outer, start, e, {id});
      HooksMakeALife(start, e, id, Tickets(hooks), g);
    } else if ending == Some(Error) {
      NoteEffect(outer, RolledBack(id), {id});
      ViewNote(outer, RolledBack(id), id);
      assert IsLife(View(e.log, id), id, Tickets(hooks), Undone);
    } else {
      NothingHappened(outer);
      Weaken(outer, outer, id);
      assert IsLife(View(e.log, id), id, Tickets(hooks), Abandoned);
    }
    CloseBlock(c, d, e);
  }

  lemma AroundIsOther(c: Context)
    requires Sound(c)
    ensures !IsCurrent(c, c.nextBlock)
  {
  }

  lemma Weaken(c: Context, d: Context, id: nat)
    requires Effect(c, d, {})
    ensures Effect(c, d, {id})
  {
  }

  lemma HooksMakeALife(start: Context, e: Context, id: nat, tickets: seq<nat>, f: Option<Failure>)
    requires View(start.log, id) == Registrations(id, tickets) + [Committed(id)]
    requires Increasing(tickets) && RanHooks(start, e, id, tickets, f)
    ensures Lived(e.log, id)
  {
    hide View;
    if f.None? {
      assert IsLife(View(e.log, id), id, tickets, AllRan);
    } else {
      var n: nat :| Cut(View(start.log, id), View(e.log, id), id, tickets, n);
      assert IsLife(View(e.log, id), id, tickets, CutAfter(n));
    }
  }

  lemma {:induction false} RunHooksEffect(hooks: seq<Hook>, id: nat, c: Context)
    requires Sound(c) && id < c.nextBlock && !IsCurrent(c, id)
    ensures var (d, f) := RunHooks(hooks, id, c); Effect(c, d, {id}) && RanHooks(c, d, id, Tickets(hooks), f)
    decreases Weight(hooks), 1
  {
    hide Effect, Sound, View;
    if hooks == [] {
      NothingHappened(c);
      Weaken(c, c, id);
    } else {
      var first, rest := hooks[0], hooks[1..];
      var start := Note(c, Ran(id, first.ticket));
      var (d, f) := Exec(first.action, start);
      NoteEffect(c, Ran(id, first.ticket), {id});
      ViewNote(c, Ran(id, first.ticket), id);
      EffectIsSound(c, start, {id});
      ExecEffect(first.action, start);
      OldBlockUntouched(start, d, id);
      Weaken(start, d, id);
      EffectThen(c, start, d, {id});
      EffectIsSound(c, d, {id});
      assert Tickets(hooks) == [first.ticket] + Tickets(rest);
      if f == Some(Cancel) {
        NoteEffect(d, Cancelled(id, first.ticket), {id});
        ViewNote(d, Cancelled(id, first.ticket), id);
        EffectThen(c, d, Note(d, Cancelled(id, first.ticket)), {id});
        assert Runs(id, Tickets(hooks)[..1]) == [Ran(id, first.ticket)];
        assert Cut(View(c.log, id), View(Note(d, Cancelled(id, first.ticket)).log, id), id, Tickets(hooks), 1);
      } else {
        RunHooksEffect(rest, id, d);
        var (e, g) := RunHooks(rest, id, d);
        EffectThen(c, d, e, {id});
        OneRan(c, d, e, id, first.ticket, Tickets(rest), g);
      }
    }
  }

  lemma OldBlockUntouched(c: Context, d: Context, id: nat)
    requires Effect(c, d, {}) && id < c.nextBlock && !IsCurrent(c, id)
    ensures View(d.log, id) == View(c.log, id)
  {
  }

  // ---------------------------------------------------------------- what that means

  ghost predicate HookWasCut(log: seq<Event>, id: nat, ticket: nat) {
    exists earlier: nat :: earlier < ticket && Cancelled(id, earlier) in log
  }

  lemma CountFew(e: Event)
    ensures Count([], e) == 0 && forall x: Event :: Count([x], e) == if x == e then 1 else 0
  {
  }

  lemma {:induction false} ViewKeepsTheBlock(log: seq<Event>, e: Event)
    ensures Count(View(log, e.block), e) == Count(log, e)
    ensures e in View(log, e.block) <==> e in log
    decreases |log|
  {
    CountFew(e);
    hide Count;
    if log != [] {
      var front, last := log[..|log| - 1], log[|log| - 1];
      ViewKeepsTheBlock(front, e);
      assert log == front + [last];
      CountAppend(front, [last], e);
      CountAppend(View(front, e.block), if last.block == e.block then [last] else [], e);
    }
  }

  /** After any program, every block that was ever opened has lived one of the four lives. */
  lemma EveryBlockLives(s: Stmt, id: nat)
    requires id < Exec(s, START).0.nextBlock
    ensures Lived(Exec(s, START).0.log, id)
  {
    ExecEffect(s, START);
  }

  lemma RunsOnce(id: nat, tickets: seq<nat>, ticket: nat)
    requires Increasing(tickets)
    ensures Ran(id, ticket) in Runs(id, tickets) <==> ticket in tickets
    ensures Count(Runs(id, tickets), Ran(id, ticket)) <= 1
  {
    RunsAreDistinct(id, tickets);
    hide Count, Distinct;
    DistinctCount(Runs(id, tickets), Ran(id, ticket));
    if ticket in tickets {
      var i :| 0 <= i < |tickets| && tickets[i] == ticket;
      assert Runs(id, tickets)[i] == Ran(id, ticket);
    }
  }

  lemma RunsAreDistinct(id: nat, tickets: seq<nat>)
    requires Increasing(tickets)
    ensures Distinct(Runs(id, tickets))
  {
  }

  lemma CutRuns(id: nat, tickets: seq<nat>, n: nat, ticket: nat)
    requires Increasing(tickets) && 0 < n <= |tickets| && ticket in tickets
    ensures ticket in tickets[..n] <==> ticket <= tickets[n - 1]
  {
    var i :| 0 <= i < |tickets| && tickets[i] == ticket;
    if i < n {
      assert tickets[..n][i] == ticket;
    }
  }

  lemma AllRanRuns(view: seq<Event>, id: nat, tickets: seq<nat>, ticket: nat)
    requires IsLife(view, id, tickets, AllRan) && ticket in tickets
    ensures Ran(id, ticket) in view && Committed(id) in view && !HookWasCut(view, id, ticket)
    ensures Count(view, Ran(id, ticket)) <= 1
  {
    var head, runs := Registrations(id, tickets) + [Committed(id)], Runs(id, tickets);
    CountAppend(head, runs, Ran(id, ticket));
    RunsOnce(id, tickets, ticket);
    NeverRuns(head, id, ticket);
    assert head[|tickets|] == Committed(id);
    assert view == head + runs;
  }

  lemma CutAfterRuns(view: seq<Event>, id: nat, tickets: seq<nat>, n: nat, ticket: nat)
    requires IsLife(view, id, tickets, CutAfter(n)) && ticket in tickets
    ensures Ran(id, ticket) in view <==> !HookWasCut(view, id, ticket)
    ensures Committed(id) in view
    ensures Count(view, Ran(id, ticket)) <= 1
  {
    hide Registrations, Runs;
    var head, runs, last := Registrations(id, tickets) + [Committed(id)], Runs(id, tickets[..n]), tickets[n - 1];
    var cut := [Cancelled(id, last)];
    assert view == (head + runs) + cut;
    CountAppend(head, runs, Ran(id, ticket));
    CountAppend(head + runs, cut, Ran(id, ticket));
    RunsOnce(id, tickets[..n], ticket);
    NotCancelled(id, tickets);
    NotCancelled(id, tickets[..n]);
    NeverRuns(head, id, ticket);
    CutRuns(id, tickets, n, ticket);
    assert head[|head| - 1] == Committed(id);
    assert cut[0] == Cancelled(id, last);
    assert Cancelled(id, last) in view;
    forall other: nat | Cancelled(id, other) in view ensures other == last {
      assert Cancelled(id, other) in head + runs || Cancelled(id, other) in cut;
    }
  }

  lemma NotCancelled(id: nat, tickets: seq<nat>)
    ensures forall e :: e in Registrations(id, tickets) ==> e.Registered?
    ensures forall e :: e in Runs(id, tickets) ==> e.Ran?
  {
  }

  /** In the life of a block, a registered hook runs exactly when the block committed and no hook registered before
      it was cancelled, and never twice. */
  lemma LifeRunsHooks(view: seq<Event>, id: nat, tickets: seq<nat>, ending: Ending, ticket: nat)
    requires IsLife(view, id, tickets, ending) && Registered(id, ticket) in view
    ensures Ran(id, ticket) in view <==> Committed(id) in view && !HookWasCut(view, id, ticket)
    ensures Count(view, Ran(id, ticket)) <= 1
  {
    hide HookWasCut;
    LifeRegisters(view, id, tickets, ending, ticket);
    match ending
    case Abandoned =>
      NotCancelled(id, tickets);
      NeverRuns(view, id, ticket);
    case Undone =>
      NotCancelled(id, tickets);
      NeverRuns(view, id, ticket);
    case AllRan => AllRanRuns(view, id, tickets, ticket);
    case CutAfter(n) => CutAfterRuns(view, id, tickets, n, ticket);
  }

  lemma LifeRegisters(view: seq<Event>, id: nat, tickets: seq<nat>, ending: Ending, ticket: nat)
    requires IsLife(view, id, tickets, ending) && Registered(id, ticket) in view
    ensures ticket in tickets
  {
    assert Registered(id, ticket) in Registrations(id, tickets);
  }

  lemma NeverRuns(view: seq<Event>, id: nat, ticket: nat)
    requires Ran(id, ticket) !in view
    ensures Count(view, Ran(id, ticket)) == 0
  {
  }

  /** For every nesting of blocks, deferrals, failures and failing commits: a hook runs exactly when the block
      that registered it committed and no hook registered there before it ended in a cancellation, whatever
      ordinary exceptions the earlier ones raised; and it never runs twice. */
  lemma HookRunsExactlyWhen(s: Stmt, id: nat, ticket: nat)
    requires Registered(id, ticket) in Exec(s, START).0.log
    ensures var log := Exec(s, START).0.log;
      && (Ran(id, ticket) in log <==> Committed(id) in log && !HookWasCut(log, id, ticket))
      && Count(log, Ran(id, ticket)) <= 1
  {
    hide Exec, View, IsLife, Effect;
    var c := Exec(s, START).0;
    ViewKeepsTheBlock(c.log, Registered(id, ticket));
    ViewKeepsTheBlock(c.log, Ran(id, ticket));
    ViewKeepsTheBlock(c.log, Committed(id));
    forall earlier: nat ensures Cancelled(id, earlier) in View(c.log, id) <==> Cancelled(id, earlier) in c.log {
      ViewKeepsTheBlock(c.log, Cancelled(id, earlier));
    }
    OnlyOpenedBlocks(s, id);
    EveryBlockLives(s, id);
    var tickets, ending :| IsLife(View(c.log, id), id, tickets, ending);
    LifeRunsHooks(View(c.log, id), id, tickets, ending, ticket);
  }

  lemma OnlyOpenedBlocks(s: Stmt, id: nat)
    requires View(Exec(s, START).0.log, id) != []
    ensures id < Exec(s, START).0.nextBlock
  {
    ExecEffect(s, START);
  }

  // ---------------------------------------------------------------- without cancellation

  /** Nothing in the program, its hooks included, is a cancellation. */
  predicate Calm(s: Stmt) {
    match s
    case Skip => true
    case Raise(f) => f != Cancel
    case Then(a, b) => Calm(a) && Calm(b)
    case Attempt(a) => Calm(a)
    case Defer(hook) => Calm(hook)
    case Transactional(body, commit, rollback) => Calm(body) && commit != Some(Cancel) && rollback != Some(Cancel)
  }

  predicate CalmHooks(hooks: seq<Hook>) {
    forall h :: h in hooks ==> Calm(h.action)
  }

  predicate CalmContext(c: Context) {
    && (c.current.Some? ==> CalmHooks(c.current.value.hooks))
    && forall e :: e in c.log ==> !e.Cancelled?
  }

  lemma {:induction false} CalmStaysCalm(s: Stmt, c: Context)
    requires Calm(s) && CalmContext(c)
    ensures CalmContext(Exec(s, c).0) && Exec(s, c).1 != Some(Cancel)
    decreases Size(s), 0
  {
    match s
    case Skip =>
    case Raise(_) =>
    case Then(a, b) =>
      CalmStaysCalm(a, c);
      CalmStaysCalm(b, Exec(a, c).0);
    case Attempt(a) => CalmStaysCalm(a, c);
    case Defer(_) =>
    case Transactional(body, commit, rollback) =>
      CalmStaysCalm(body, Opened(c));
      var (d, f) := Exec(body, Opened(c));
      if f.None? && commit.None? {
        CalmHooksStayCalm(d.current.value.hooks, c.nextBlock, Note(d.(current := c.current), Committed(c.nextBlock)));
      }
  }

  lemma {:induction false} CalmHooksStayCalm(hooks: seq<Hook>, id: nat, c: Context)
    requires CalmHooks(hooks) && CalmContext(c)
    ensures CalmContext(RunHooks(hooks, id, c).0) && RunHooks(hooks, id, c).1 == None
    decreases Weight(hooks), 1
  {
    if hooks != [] {
      CalmStaysCalm(hooks[0].action, Note(c, Ran(id, hooks[0].ticket)));
      CalmHooksStayCalm(hooks[1..], id, Exec(hooks[0].action, Note(c, Ran(id, hooks[0].ticket))).0);
    }
  }

  /** In a program without cancellations a hook runs exactly once if its block committed, and never otherwise. */
  lemma CalmHookRunsIffCommitted(s: Stmt, id: nat, ticket: nat)
    requires Calm(s) && Registered(id, ticket) in Exec(s, START).0.log
    ensures var log := Exec(s, START).0.log;
      Count(log, Ran(id, ticket)) == if Committed(id) in log then 1 else 0
  {
    CalmStaysCalm(s, START);
    HookRunsExactlyWhen(s, id, ticket);
  }

  const CUT_SHORT := Transactional(Then(Defer(Raise(Cancel)), Defer(Skip)), None, None)

  /** With one it may not: the block commits, its first hook is cancelled, and its second never runs; and the
      cancellation reaches the caller. */
  lemma CancelledHookCutsTheRest()
    ensures var (c, f) := Exec(CUT_SHORT, START);
      c.log == [Registered(0, 0), Registered(0, 1), Committed(0), Ran(0, 0), Cancelled(0, 0)] && f == Some(Cancel)
  {
    var c1 := Opened(START);
    var c2 := Deferred(c1, Raise(Cancel));
    var c3 := Deferred(c2, Skip);
    assert Exec(Defer(Raise(Cancel)), c1) == (c2, None);
    assert Exec(Defer(Skip), c2) == (c3, None);
    assert Exec(Then(Defer(Raise(Cancel)), Defer(Skip)), c1) == (c3, None);
    var hooks := [Hook(0, Raise(Cancel)), Hook(1, Skip)];
    assert c2.current.value.hooks == hooks[..1];
    assert c3.current.value.hooks == c2.current.value.hooks + [Hook(1, Skip)] == hooks;
    assert c3.log == [Registered(0, 0), Registered(0, 1)];
    var c4 := Note(c3.(current := None), Committed(0));
    assert Exec(CUT_SHORT, START) == RunHooks(hooks, 0, c4);
    assert Exec(hooks[0].action, Note(c4, Ran(0, 0))) == (Note(c4, Ran(0, 0)), Some(Cancel));
  }

  // ---------------------------------------------------------------- what the caller sees

  /** On every exit from a block the registry of the block around it is current again. A block that did not
      commit leaves that registry exactly as it was; the hooks of one that did run with it current, and may add
      to it. No ordinary exception of a hook gets out. */
  lemma RegistryRestored(body: Stmt, commit: Option<Failure>, rollback: Option<Failure>, c: Context)
    requires Sound(c)
    ensures var (d, f) := Exec(Transactional(body, commit, rollback), c);
      && (c.current.None? ==> d.current.None?)
      && (c.current.Some? ==>
            && IsCurrent(d, c.current.value.id) && c.current.value.hooks <= d.current.value.hooks
            && (Committed(c.nextBlock) !in d.log ==> d.current == c.current))
      && (Committed(c.nextBlock) in d.log ==> f != Some(Error))
  {
    hide Sound, Exec, RunHooks;
    var id := c.nextBlock;
    var (d, f) := Exec(body, Opened(c));
    BodyDoesNotCommit(body, c);
    var outer, ending := d.(current := c.current), if f.Some? then f else commit;
    if ending.None? {
      CommitRunsHooks(body, commit, rollback, c);
      CommitStays(outer, d.current.value.hooks, id);
    } else {
      OnlyCommitsByCommitting(body, commit, rollback, c);
    }
  }

  /** What a block comes to, once its body has run. */
  function Ended(d: Context, ending: Option<Failure>, rollback: Option<Failure>, c: Context): (Context, Option<Failure>)
    requires d.current.Some?
  {
    var outer := d.(current := c.current);
    if ending.None? then RunHooks(d.current.value.hooks, c.nextBlock, Note(outer, Committed(c.nextBlock)))
    else if ending == Some(Error) then RollBack(outer, c.nextBlock, rollback)
    else (outer, ending)
  }

  lemma BlockUnfolds(body: Stmt, commit: Option<Failure>, rollback: Option<Failure>, c: Context)
    ensures var (d, f) := Exec(body, Opened(c));
      d.current.Some?
      && Exec(Transactional(body, commit, rollback), c) == Ended(d, if f.Some? then f else commit, rollback, c)
  {
  }

  lemma CommitRunsHooks(body: Stmt, commit: Option<Failure>, rollback: Option<Failure>, c: Context)
    requires Exec(body, Opened(c)).1.None? && commit.None?
    ensures var d := Exec(body, Opened(c)).0;
      Exec(Transactional(body, commit, rollback), c)
        == RunHooks(d.current.value.hooks, c.nextBlock, Note(d.(current := c.current), Committed(c.nextBlock)))
  {
    BlockUnfolds(body, commit, rollback, c);
    hide Exec, RunHooks, RollBack;
  }

  lemma OnlyCommitsByCommitting(body: Stmt, commit: Option<Failure>, rollback: Option<Failure>, c: Context)
    requires Committed(c.nextBlock) !in Exec(body, Opened(c)).0.log
    requires Exec(body, Opened(c)).1.Some? || commit.Some?
    ensures var d := Exec(Transactional(body, commit, rollback), c).0;
      Committed(c.nextBlock) !in d.log && d.current == c.current
  {
    hide Exec, RunHooks;
    BlockUnfolds(body, commit, rollback, c);
  }

  lemma BodyDoesNotCommit(body: Stmt, c: Context)
    requires Sound(c)
    ensures Committed(c.nextBlock) !in Exec(body, Opened(c)).0.log
  {
    hide Exec, View;
    var d := Exec(body, Opened(c)).0;
    OpenedIsSound(c);
    ExecEffect(body, Opened(c));
    BodyRegisters(c, d);
    ViewKeepsTheBlock(d.log, Committed(c.nextBlock));
  }

  /** A block commits exactly when its body ends normally and the commit does not raise, and is rolled back exactly
      when either raises an ordinary exception. */
  lemma BlockCommitsExactly(body: Stmt, commit: Option<Failure>, rollback: Option<Failure>, c: Context)
    requires Sound(c)
    ensures var d, raised := Exec(Transactional(body, commit, rollback), c).0, Exec(body, Opened(c)).1;
      var id := c.nextBlock;
      && (Committed(id) in d.log <==> raised.None? && commit.None?)
      && (RolledBack(id) in d.log <==> raised == Some(Error) || (raised.None? && commit == Some(Error)))
  {
    hide Sound, View;
    var id := c.nextBlock;
    var (d, f) := Exec(body, Opened(c));
    var e := Exec(Transactional(body, commit, rollback), c).0;
    var outer, ending := d.(current := c.current), if f.Some? then f else commit;
    BodyDoesNotEndItsBlock(body, c);
    if ending.None? {
      CommitStays(outer, d.current.value.hooks, id);
      CommittedIsNotRolledBack(body, commit, rollback, c);
    } else if ending == Some(Error) {
      assert e.log == d.log + [RolledBack(id)];
      assert e.log[|d.log|] == RolledBack(id);
    }
  }

  /** When the failure of a hook reaches the caller: of a committed block, exactly when one of its hooks ended in a
      cancellation; and what the caller then sees is that cancellation. */
  lemma HookFailureReachesCallerIff(body: Stmt, commit: Option<Failure>, rollback: Option<Failure>, c: Context)
    requires Sound(c)
    ensures var (e, f) := Exec(Transactional(body, commit, rollback), c);
      var id := c.nextBlock;
      Committed(id) in e.log ==>
        && (f.Some? <==> exists ticket: nat :: Cancelled(id, ticket) in e.log)
        && (f.Some? ==> f == Some(Cancel))
  {
    hide Sound, View;
    var id := c.nextBlock;
    var (e, f) := Exec(Transactional(body, commit, rollback), c);
    BlockCommitsExactly(body, commit, rollback, c);
    if Committed(id) in e.log {
      CommittedBlockRan(body, rollback, c);
      var tickets := Tickets(Exec(body, Opened(c)).0.current.value.hooks);
      CancelledInView(e.log, id, tickets, f);
      RegistryRestored(body, commit, rollback, c);
      if f.Some? {
        match f.value
        case Error =>
        case Cancel =>
      }
    }
  }

  /** What a block that did not commit raises: always something, so the caller never takes it for a success. The
      cancellation of the body or of the commit passes as it is; after an ordinary exception the caller sees that
      exception, or the rollback's own failure if the rollback raised one. */
  lemma FailedBlockRaisesExactly(body: Stmt, commit: Option<Failure>, rollback: Option<Failure>, c: Context)
    requires Sound(c)
    ensures var (d, f) := Exec(Transactional(body, commit, rollback), c);
      var raised := Exec(body, Opened(c)).1;
      var cause := if raised.Some? then raised else commit;
      Committed(c.nextBlock) !in d.log ==>
        && cause.Some? && f.Some?
        && (cause == Some(Cancel) ==> f == Some(Cancel))
        && (cause == Some(Error) && rollback.Some? ==> f == rollback)
        && (cause == Some(Error) && rollback.None? ==> f == Some(Error))
  {
    hide Sound, RunHooks;
    BlockCommitsExactly(body, commit, rollback, c);
  }

  /** So the caller sees a block end normally exactly when it committed and no hook of it was cancelled. */
  lemma BlockSucceedsIff(body: Stmt, commit: Option<Failure>, rollback: Option<Failure>, c: Context)
    requires Sound(c)
    ensures var (d, f) := Exec(Transactional(body, commit, rollback), c);
      f.None? <==> Committed(c.nextBlock) in d.log && forall ticket: nat :: Cancelled(c.nextBlock, ticket) !in d.log
  {
    hide Sound, Exec;
    FailedBlockRaisesExactly(body, commit, rollback, c);
    HookFailureReachesCallerIff(body, commit, rollback, c);
  }

  /** Sequencing is what it is in any language: nothing before or after a statement changes it, a failure ends the
      sequence as the failure it is, and grouping does not matter. */
  lemma SequencesAreOrdinary(a: Stmt, b: Stmt, d: Stmt, failure: Failure, c: Context)
    ensures Exec(Then(Skip, a), c) == Exec(a, c) == Exec(Then(a, Skip), c)
    ensures Exec(Then(Raise(failure), a), c) == (c, Some(failure))
    ensures Exec(Then(Then(a, b), d), c) == Exec(Then(a, Then(b, d)), c)
  {
    Unfolded(Skip, a, c);
    Unfolded(a, Skip, c);
    Unfolded(Raise(failure), a, c);
    Unfolded(a, b, c);
    Unfolded(Then(a, b), d, c);
    Unfolded(a, Then(b, d), c);
    Unfolded(b, d, Exec(a, c).0);
    Atoms(c, failure);
    Atoms(Exec(a, c).0, failure);
    hide Exec;
  }

  lemma Unfolded(a: Stmt, b: Stmt, c: Context)
    ensures Exec(Then(a, b), c) == if Exec(a, c).1.Some? then Exec(a, c) else Exec(b, Exec(a, c).0)
  {
  }

  lemma Atoms(c: Context, failure: Failure)
    ensures Exec(Skip, c) == (c, None) && Exec(Raise(failure), c) == (c, Some(failure))
  {
  }

  /** A handler around a statement, and so one around a block, hides ordinary exceptions and nothing else. */
  lemma HandlersSeeOrdinaryExceptions(s: Stmt, c: Context)
    ensures var (d, f) := Exec(s, c);
      var (e, g) := Exec(Attempt(s), c);
      e == d && (g.Some? <==> f == Some(Cancel)) && (g.Some? ==> g == f)
  {
    match Exec(s, c).1
    case None =>
    case Some(Error) =>
    case Some(Cancel) =>
  }

  /** Inside a block a deferral registers its hook there, behind the others; outside it fails and registers nothing. */
  lemma DeferRegistersLast(hook: Stmt, c: Context)
    ensures var (d, f) := Exec(Defer(hook), c);
      if c.current.None? then f == Some(Error) && d == c
      else
        var ticket, block := c.nextTicket, c.current.value;
        && f == None
        && d.current.Some? && d.current.value.id == block.id
        && d.current.value.hooks == block.hooks + [Hook(ticket, hook)]
        && d.log == c.log + [Registered(block.id, ticket)] && d.nextBlock == c.nextBlock && d.nextTicket == ticket + 1
  {
  }

  /** The view of a committed block. */
  ghost predicate CommittedView(view: seq<Event>, id: nat, tickets: seq<nat>, f: Option<Failure>) {
    var before := Registrations(id, tickets) + [Committed(id)];
    if f.None? then view == before + Runs(id, tickets) else exists n :: Cut(before, view, id, tickets, n)
  }

  lemma CommittedBlockRan(body: Stmt, rollback: Option<Failure>, c: Context)
    requires Sound(c) && Exec(body, Opened(c)).1.None?
    ensures var (e, f) := Exec(Transactional(body, None, rollback), c);
      CommittedView(View(e.log, c.nextBlock), c.nextBlock, Tickets(Exec(body, Opened(c)).0.current.value.hooks), f)
  {
    hide Exec, Effect, Sound, View, Registrations, Runs, Tickets, Cut;
    var id := c.nextBlock;
    var (d, f) := Exec(body, Opened(c));
    CommitRunsHooks(body, None, rollback, c);
    OpenedIsSound(c);
    ExecEffect(body, Opened(c));
    BodyRegisters(c, d);
    AroundIsOther(c);
    var outer := d.(current := c.current);
    var start := Note(outer, Committed(id));
    NoteEffect(outer, Committed(id), {id});
    ViewNote(outer, Committed(id), id);
    EffectIsSound(outer, start, {id});
    RunHooksEffect(d.current.value.hooks, id, start);
  }

  lemma CancelledInView(log: seq<Event>, id: nat, tickets: seq<nat>, f: Option<Failure>)
    requires CommittedView(View(log, id), id, tickets, f)
    ensures f.Some? <==> exists ticket: nat :: Cancelled(id, ticket) in log
  {
    hide View;
    var view, before := View(log, id), Registrations(id, tickets) + [Committed(id)];
    forall ticket: nat ensures Cancelled(id, ticket) in view <==> Cancelled(id, ticket) in log {
      ViewKeepsTheBlock(log, Cancelled(id, ticket));
    }
    NotCancelled(id, tickets);
    if f.Some? {
      var n: nat :| Cut(before, view, id, tickets, n);
      assert view[|view| - 1] == Cancelled(id, tickets[n - 1]);
    } else {
      assert forall e :: e in view ==> !e.Cancelled?;
    }
  }

  lemma BodyDoesNotEndItsBlock(body: Stmt, c: Context)
    requires Sound(c)
    ensures var log := Exec(body, Opened(c)).0.log; Committed(c.nextBlock) !in log && RolledBack(c.nextBlock) !in log
  {
    hide Exec, View;
    var d := Exec(body, Opened(c)).0;
    BodyDoesNotCommit(body, c);
    OpenedIsSound(c);
    ExecEffect(body, Opened(c));
    BodyRegisters(c, d);
    ViewKeepsTheBlock(d.log, RolledBack(c.nextBlock));
  }

  lemma CommittedIsNotRolledBack(body: Stmt, commit: Option<Failure>, rollback: Option<Failure>, c: Context)
    requires Sound(c) && Committed(c.nextBlock) in Exec(Transactional(body, commit, rollback), c).0.log
    ensures RolledBack(c.nextBlock) !in Exec(Transactional(body, commit, rollback), c).0.log
  {
    hide Exec, View, Effect, Sound, IsLife;
    var id, e := c.nextBlock, Exec(Transactional(body, commit, rollback), c).0;
    ExecEffect(Transactional(body, commit, rollback), c);
    ViewKeepsTheBlock(e.log, RolledBack(id));
    ViewKeepsTheBlock(e.log, Committed(id));
    OnlyOlder(c, e, id);
    var tickets, ending :| IsLife(View(e.log, id), id, tickets, ending);
    OneEnding(View(e.log, id), id, tickets, ending);
  }

  lemma OneEnding(view: seq<Event>, id: nat, tickets: seq<nat>, ending: Ending)
    requires IsLife(view, id, tickets, ending) && Committed(id) in view
    ensures RolledBack(id) !in view
  {
    NotCancelled(id, tickets);
    hide Registrations, Runs, Increasing;
    if ending.CutAfter? {
      NotCancelled(id, tickets[..ending.n]);
    }
  }

  lemma OnlyOlder(c: Context, e: Context, id: nat)
    requires Effect(c, e, {}) && id >= c.nextBlock && View(e.log, id) != []
    ensures Lived(e.log, id)
  {
  }

  lemma {:induction false} LogGrows(s: Stmt, c: Context)
    ensures c.log <= Exec(s, c).0.log
    decreases Size(s), 0
  {
    match s
    case Skip =>
    case Raise(_) =>
    case Then(a, b) =>
      LogGrows(a, c);
      LogGrows(b, Exec(a, c).0);
    case Attempt(a) => LogGrows(a, c);
    case Defer(_) =>
    case Transactional(body, commit, rollback) =>
      LogGrows(body, Opened(c));
      var (d, f) := Exec(body, Opened(c));
      HookLogGrows(d.current.value.hooks, c.nextBlock, Note(d.(current := c.current), Committed(c.nextBlock)));
  }

  lemma {:induction false} HookLogGrows(hooks: seq<Hook>, id: nat, c: Context)
    ensures c.log <= RunHooks(hooks, id, c).0.log
    decreases Weight(hooks), 1
  {
    if hooks != [] {
      LogGrows(hooks[0].action, Note(c, Ran(id, hooks[0].ticket)));
      HookLogGrows(hooks[1..], id, Exec(hooks[0].action, Note(c, Ran(id, hooks[0].ticket))).0);
    }
  }

  lemma CommitStays(c: Context, hooks: seq<Hook>, id: nat)
    ensures Committed(id) in RunHooks(hooks, id, Note(c, Committed(id))).0.log
  {
    HookLogGrows(hooks, id, Note(c, Committed(id)));
    var log := RunHooks(hooks, id, Note(c, Committed(id))).0.log;
    assert log[|c.log|] == Committed(id);
  }
}
