/**
 The saved board (src/coordination/store.ts): a log of accepted commands replayed over a fixed seed,
 one writer at a time behind a lock file, replaced whole by an atomic rename.
 */
module BoardStore {
  import opened Basics
  import opened Board
  import opened BoardHistory

  const MAX_COMMANDS := 15_000
  const MAX_LOG_BYTES := 16 * 1024 * 1024

  datatype Saved = Saved(at: string, command: Command)

  /** The log file; the digest of the seed it was begun over is held by value. */
  datatype Log = Log(seed: State, commands: seq<Saved>)

  /** The board a log describes: every saved command, applied in order, none refused. */
  function Replay(seed: State, scope: string, allowed: seq<Context>, commands: seq<Saved>): Option<State> {
    if commands == [] then Some(seed)
    else
      match Replay(seed, scope, allowed, commands[..|commands| - 1])
      case None => None
      case Some(s) =>
        var last := commands[|commands| - 1];
        match ApplyCommand(s, scope, last.command, allowed, last.at)
        case Ok(t) => Some(t)
        case Refused(_) => None
  }

  lemma ReplayNext(seed: State, scope: string, allowed: seq<Context>, commands: seq<Saved>, last: Saved, s: State,
      t: State)
    requires Replay(seed, scope, allowed, commands) == Some(s)
      && ApplyCommand(s, scope, last.command, allowed, last.at) == Ok(t)
    ensures Replay(seed, scope, allowed, commands + [last]) == Some(t)
  {
    hide ApplyCommand;
    assert (commands + [last])[..|commands|] == commands;
  }

  /** Where a process may be stopped while it holds the lock. */
  datatype Crash = NoCrash | BeforeRename | AfterRename

  datatype Outcome =
    | Done(board: State)
    | Declined(why: Refusal)
    | Busy
    | AtCapacity
    | InvalidLog
    | Crashed

  class Repository {
    const seed: State
    const scope: string
    const allowed: seq<Context>
    const sizeOf: Log -> nat
    var file: Option<Log>
    var locked: bool

    constructor (seed: State, scope: string, allowed: seq<Context>, sizeOf: Log -> nat)
      ensures this.seed == seed && this.scope == scope && this.allowed == allowed && this.sizeOf == sizeOf
      ensures file == None && !locked && Valid() && Board() == seed
    {
      this.seed, this.scope, this.allowed, this.sizeOf := seed, scope, allowed, sizeOf;
      file, locked := None, false;
    }

    /** What is on disk can be read back. */
    ghost predicate Valid()
      reads this
    {
      file.Some? ==>
        var log := file.value;
        && sizeOf(log) <= 16_777_216 && log.seed == seed && |log.commands| <= 15_000
        && Replay(seed, scope, allowed, log.commands).Some?
    }

    ghost function Commands(): seq<Saved>
      reads this
    {
      if file.None? then [] else file.value.commands
    }

    /** The board that is saved. */
    ghost function Board(): State
      requires Valid()
      reads this
    {
      Replay(seed, scope, allowed, Commands()).value
    }

    /** Reads the log and replays it; None when it cannot be replayed. */
    method Load() returns (r: Option<(Log, State)>)
      ensures r.Some? <==> Valid()
      ensures r.Some? ==> r.value.0.commands == Commands() && r.value.0.seed == seed && r.value.1 == Board()
    {
      hide ApplyCommand;
      if file.None? { return Some((Log(seed, []), seed)); }
      var log := file.value;
      if sizeOf(log) > MAX_LOG_BYTES || log.seed != seed || |log.commands| > MAX_COMMANDS { return None; }
      var state := seed;
      for i := 0 to |log.commands|
        invariant Replay(seed, scope, allowed, log.commands[..i]) == Some(state)
      {
        var entry := log.commands[i];
        assert log.commands[..i + 1][..i] == log.commands[..i];
        match ApplyCommand(state, scope, entry.command, allowed, entry.at) {
          case Ok(next) => state := next;
          case Refused(_) =>
            ReplayStopsAtRefusal(seed, scope, allowed, log.commands, i + 1);
            return None;
        }
      }
      assert log.commands[..|log.commands|] == log.commands;
      return Some((log, state));
    }

    method Read() returns (r: Outcome)
      ensures Valid() ==> r == Done(Board())
      ensures !Valid() ==> r == InvalidLog
    {
      var loaded := Load();
      return if loaded.None? then InvalidLog else Done(loaded.value.1);
    }

    /**
     One command under the lock. What is returned is what is saved; what is refused, or stopped before the rename,
     changes nothing; and a process stopped while it holds the lock leaves it held.
     */
    method Execute(command: Command, at: string, crash: Crash) returns (r: Outcome)
      modifies this
      ensures old(locked) ==> r == Busy && file == old(file) && locked
      ensures !old(locked) && old(Valid()) ==>
        match ApplyCommand(old(Board()), scope, command, allowed, at)
        case Refused(why) => r == Declined(why) && file == old(file)
        case Ok(next) =>
          var longer := Log(seed, old(Commands()) + [Saved(at, command)]);
          if next == old(Board()) then r == Done(next) && file == old(file)
          else if |longer.commands| > 15_000 || sizeOf(longer) > 16_777_216 then r == AtCapacity && file == old(file)
          else
            && r == (if crash == NoCrash then Done(next) else Crashed)
            && file == (if crash == BeforeRename then old(file) else Some(longer))
      ensures r == Busy ==> old(locked)
      ensures !old(locked) ==> (locked <==> r == Crashed) && (r == InvalidLog <==> !old(Valid()))
      ensures r.Done? || r.Crashed? || file == old(file)
      ensures old(Valid()) ==>
        Valid() && (Commands() == old(Commands()) || Commands() == old(Commands()) + [Saved(at, command)])
      ensures r.Done? ==>
        old(Valid()) && ApplyCommand(old(Board()), scope, command, allowed, at) == Ok(r.board) && Board() == r.board
      ensures r.Declined? ==>
        old(Valid()) && ApplyCommand(old(Board()), scope, command, allowed, at) == Refused(r.why)
      ensures r.Crashed? ==> old(Valid())
      ensures r.Crashed? && file != old(file) ==> ApplyCommand(old(Board()), scope, command, allowed, at) == Ok(Board())
    {
      hide ApplyCommand;
      if locked { return Busy; }
      locked := true;
      var loaded := Load();
      if loaded.None? { locked := false; return InvalidLog; }
      var (log, state) := loaded.value;
      match ApplyCommand(state, scope, command, allowed, at) {
        case Refused(why) =>
          locked := false;
          return Declined(why);
        case Ok(next) =>
          if next == state { locked := false; return Done(next); }
          if |log.commands| >= MAX_COMMANDS { locked := false; return AtCapacity; }
          var longer := log.(commands := log.commands + [Saved(at, command)]);
          if sizeOf(longer) > MAX_LOG_BYTES { locked := false; return AtCapacity; }
          if crash == BeforeRename { return Crashed; }
          ReplayNext(seed, scope, allowed, log.commands, Saved(at, command), state, next);
          file := Some(longer);
          if crash == AfterRename { return Crashed; }
          locked := false;
          return Done(next);
      }
    }
  }

  lemma {:induction false} ReplayStopsAtRefusal(seed: State, scope: string, allowed: seq<Context>,
      commands: seq<Saved>, n: nat)
    requires n <= |commands| && Replay(seed, scope, allowed, commands[..n]).None?
    ensures Replay(seed, scope, allowed, commands).None?
  {
    hide ApplyCommand;
    if n == |commands| {
      assert commands[..n] == commands;
    } else {
      var shorter := commands[..|commands| - 1];
      assert shorter[..n] == commands[..n];
      ReplayStopsAtRefusal(seed, scope, allowed, shorter, n);
    }
  }

  /** A board rebuilt from its log is the board in order that the commands, one after another, made. */
  lemma {:induction false} ReplayedBoardIsOk(seed: State, scope: string, allowed: seq<Context>, commands: seq<Saved>)
    requires BoardOk(seed) && Replay(seed, scope, allowed, commands).Some?
    ensures BoardOk(Replay(seed, scope, allowed, commands).value)
  {
    hide ApplyCommand, BoardOk;
    if commands != [] {
      var shorter, last := commands[..|commands| - 1], commands[|commands| - 1];
      ReplayedBoardIsOk(seed, scope, allowed, shorter);
      AppliedKeeps(Replay(seed, scope, allowed, shorter).value, scope, last.command, allowed, last.at);
    }
  }

  lemma {:induction false} ReplayExtends(seed: State, scope: string, allowed: seq<Context>, commands: seq<Saved>,
      n: nat)
    requires n <= |commands| && Replay(seed, scope, allowed, commands).Some?
    ensures var part := Replay(seed, scope, allowed, commands[..n]);
      part.Some? && IsLater(part.value, Replay(seed, scope, allowed, commands).value, allowed)
  {
    hide ApplyCommand, Run;
    if n == |commands| {
      assert commands[..n] == commands;
      NothingLater(Replay(seed, scope, allowed, commands).value, allowed);
    } else {
      var shorter, last := commands[..|commands| - 1], commands[|commands| - 1];
      assert shorter[..n] == commands[..n];
      ReplayExtends(seed, scope, allowed, shorter, n);
      OneLater(Replay(seed, scope, allowed, commands[..n]).value, Replay(seed, scope, allowed, shorter).value,
               Entry(scope, last.command, last.at), allowed);
    }
  }

  /** A state that some further commands lead to. */
  ghost predicate IsLater(s: State, t: State, allowed: seq<Context>) { exists entries :: Run(s, entries, allowed) == t }

  lemma NothingLater(s: State, allowed: seq<Context>)
    ensures IsLater(s, s, allowed)
  {
    assert Run(s, [], allowed) == s;
  }

  lemma OneLater(s: State, t: State, e: Entry, allowed: seq<Context>)
    requires IsLater(s, t, allowed)
    ensures IsLater(s, After(t, e, allowed), allowed)
  {
    hide After;
    var entries :| Run(s, entries, allowed) == t;
    assert (entries + [e])[..|entries|] == entries;
    assert Run(s, entries + [e], allowed) == After(t, e, allowed);
  }

  /**
   Whatever was saved since, a saved command sent again is accepted and adds nothing: an uncertain answer can be
   retried.
   */
  lemma RetryAddsNothing(seed: State, scope: string, allowed: seq<Context>, commands: seq<Saved>, n: nat, later: string)
    requires n < |commands| && Replay(seed, scope, allowed, commands).Some?
    ensures var board := Replay(seed, scope, allowed, commands).value;
      ApplyCommand(board, scope, commands[n].command, allowed, later) == Ok(board)
  {
    hide ApplyCommand, Run;
    ReplayExtends(seed, scope, allowed, commands, n + 1);
    var upTo := commands[..n + 1];
    assert upTo[..|upTo| - 1] == commands[..n] && upTo[|upTo| - 1] == commands[n];
    var before := Replay(seed, scope, allowed, commands[..n]).value;
    var after := Replay(seed, scope, allowed, upTo).value;
    var entries :| Run(after, entries, allowed) == Replay(seed, scope, allowed, commands).value;
    AcceptedOnceIsNoOpEverAfter(before, scope, commands[n].command, allowed, commands[n].at, entries, later);
  }
}
