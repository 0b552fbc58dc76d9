/** Around the command that a worker runs: the state of the process is set for
    it and restored after it, and its end is claimed exactly once, by its return
    or by an exit from anywhere within it. */
module WorkerProcess {
  import opened Options
  import opened SortedStrings
  import opened WorkerProtocol

  const ENDPOINT := "GOLANGCI_WORKER_ENDPOINT"
  const TOKEN := "GOLANGCI_WORKER_TOKEN"

  // ----- The state of the process

  function Lookup(env: map<string, string>, key: string): Option<string> {
    if key in env then Some(env[key]) else None
  }

  /** What `restore` needs. */
  datatype Saved = Saved(keys: seq<string>, previous: map<string, Option<string>>, args: seq<string>, cwd: string)

  /** `saved` holds the values in `env` of all its keys. */
  ghost predicate SavedFrom(saved: Saved, env: map<string, string>) {
    forall k :: k in saved.keys ==> k in saved.previous && saved.previous[k] == Lookup(env, k)
  }

  /** `env` differs from `before` at most in the keys of `saved`. */
  ghost predicate OnlyKeys(saved: Saved, before: map<string, string>, env: map<string, string>) {
    forall k: string :: k !in saved.keys ==> Lookup(env, k) == Lookup(before, k)
  }

  /** The keys that are set for a run, and so the keys that are saved. */
  predicate SetFor(environment: map<string, string>, k: string) {
    k in environment || k == ENDPOINT || k == TOKEN
  }

  ghost predicate SameEnv(a: map<string, string>, b: map<string, string>) {
    forall k: string :: Lookup(a, k) == Lookup(b, k)
  }

  class Process {
    var env: map<string, string>
    var args: seq<string>
    var cwd: string

    /** Undoes whatever happened to the saved keys, the arguments and the
        directory. */
    method Restore(saved: Saved)
      requires forall k :: k in saved.keys ==> k in saved.previous
      modifies this
      ensures args == saved.args && cwd == saved.cwd
      ensures forall k :: k in saved.keys ==> Lookup(env, k) == saved.previous[k]
      ensures OnlyKeys(saved, old(env), env)
    {
      for i := 0 to |saved.keys|
        invariant forall j :: 0 <= j < i ==> Lookup(env, saved.keys[j]) == saved.previous[saved.keys[j]]
        invariant OnlyKeys(saved, old(env), env)
      {
        var key := saved.keys[i];
        var value := saved.previous[key];
        if value.Some? {
          env := env[key := value.value];
        } else {
          env := env - {key};
        }
      }
      args, cwd := saved.args, saved.cwd;
    }

    /** The command sees its own environment without the worker's secrets; if
        anything fails, the process is as it was. */
    method ApplyWorkerProcessState(run: Payload) returns (r: Option<Saved>)
      requires run.RunPayload? && args != []
      modifies this
      ensures r.None? ==> SameEnv(old(env), env) && args == old(args) && cwd == old(cwd)
      ensures ENDPOINT in run.environment || TOKEN in run.environment ==> r.None?
      ensures r.Some? ==>
                && Lookup(env, ENDPOINT) == Lookup(env, TOKEN) == None
                && (forall k :: k in run.environment ==> Lookup(env, k) == Some(run.environment[k]))
                && (forall k: string :: !SetFor(run.environment, k) ==> Lookup(env, k) == Lookup(old(env), k))
                && cwd == run.workingDirectory && args == [old(args)[0]] + run.args
      ensures r.Some? ==> SavedFrom(r.value, old(env)) && r.value.args == old(args) && r.value.cwd == old(cwd)
      ensures r.Some? ==> forall k: string :: k in r.value.keys <==> SetFor(run.environment, k)
    {
      if ENDPOINT in run.environment || TOKEN in run.environment {
        return None;
      }
      var saved := Save(run.environment);
      hide SavedFrom, OnlyKeys;
      if * {
        assert SameEnv(old(env), env);
        return None;
      }
      hide SameEnv, SetFor, Lookup;
      args, cwd := [args[0]] + run.args, run.workingDirectory;
      var ok := SetKeys(saved, run.environment);
      if !ok {
        HasPrevious(saved, old(env));
        ghost var mid := env;
        Restore(saved);
        SameAgain(saved, old(env), mid, env);
        return None;
      }
      SetMeans(saved, old(env), env, run.environment);
      r := Some(saved);
    }

    /** The old values of the keys to be set. */
    method Save(environment: map<string, string>) returns (saved: Saved)
      ensures SavedFrom(saved, env) && saved.args == args && saved.cwd == cwd
      ensures forall k: string :: k in saved.keys <==> SetFor(environment, k)
    {
      var keys := SortedKeys(environment.Keys + {ENDPOINT, TOKEN});
      KeysCover(environment, keys);
      var previous := map k | k in keys :: Lookup(env, k);
      saved := Saved(keys, previous, args, cwd);
    }

    method SetKeys(saved: Saved, environment: map<string, string>) returns (ok: bool)
      requires ENDPOINT !in environment && TOKEN !in environment
      requires forall k :: k in saved.keys ==> SetFor(environment, k)
      modifies this`env
      ensures OnlyKeys(saved, old(env), env)
      ensures ok ==> forall k :: k in saved.keys ==> Lookup(env, k) == Lookup(environment, k)
    {
      for i := 0 to |saved.keys|
        invariant OnlyKeys(saved, old(env), env)
        invariant forall j :: 0 <= j < i ==> Lookup(env, saved.keys[j]) == Lookup(environment, saved.keys[j])
      {
        var key := saved.keys[i];
        if * {
          return false;
        }
        if key == ENDPOINT || key == TOKEN {
          env := env - {key};
        } else {
          assert SetFor(environment, key);
          env := env[key := environment[key]];
        }
      }
      ok := true;
    }
  }

  lemma HasPrevious(saved: Saved, env: map<string, string>)
    requires SavedFrom(saved, env)
    ensures forall k :: k in saved.keys ==> k in saved.previous
  {
  }

  lemma SameAgain(saved: Saved, before: map<string, string>, mid: map<string, string>, after: map<string, string>)
    requires SavedFrom(saved, before) && OnlyKeys(saved, before, mid) && OnlyKeys(saved, mid, after)
    requires forall k :: k in saved.keys ==> k in saved.previous && Lookup(after, k) == saved.previous[k]
    ensures SameEnv(before, after)
  {
    hide Lookup;
  }

  lemma SetMeans(saved: Saved, before: map<string, string>, env: map<string, string>, environment: map<string, string>)
    requires OnlyKeys(saved, before, env) && ENDPOINT !in environment && TOKEN !in environment
    requires forall k: string :: k in saved.keys <==> SetFor(environment, k)
    requires forall k :: k in saved.keys ==> Lookup(env, k) == Lookup(environment, k)
    ensures Lookup(env, ENDPOINT) == Lookup(env, TOKEN) == None
    ensures forall k :: k in environment ==> Lookup(env, k) == Some(environment[k])
    ensures forall k: string :: !SetFor(environment, k) ==> Lookup(env, k) == Lookup(before, k)
  {
    assert SetFor(environment, ENDPOINT) && SetFor(environment, TOKEN);
    forall k | k in environment
      ensures Lookup(env, k) == Some(environment[k])
    {
      assert SetFor(environment, k);
    }
  }

  lemma KeysCover(environment: map<string, string>, keys: seq<string>)
    requires keys == SortedSeq(environment.Keys + {ENDPOINT, TOKEN})
    ensures forall k: string :: k in keys <==> SetFor(environment, k)
  {
    assert forall k: string :: k in keys <==> k in Elements(keys);
  }

  // ----- Around a whole run

  /** The state of a process as a value. */
  datatype Shell = Shell(env: map<string, string>, args: seq<string>, cwd: string)

  /** What a command leaves behind, and whether it exited from within. */
  datatype Ended = Ended(shell: Shell, exited: bool)

  /** The command left every key that was not set for it as it was. */
  ghost predicate KeptOthers(before: map<string, string>, environment: map<string, string>, left: map<string, string>) {
    forall k: string :: !SetFor(environment, k) ==> Lookup(left, k) == Lookup(before, k)
  }

  /** `env` has the old values of the keys set for the run, and what the
      command left of all others. */
  ghost predicate RestoredTo(env: map<string, string>, before: map<string, string>, environment: map<string, string>,
                             left: map<string, string>)
  {
    forall k: string :: Lookup(env, k) == Lookup(if SetFor(environment, k) then before else left, k)
  }

  /** After restoring, the environment is the old one exactly if the command
      left the other keys alone. */
  lemma SameEnvIff(env: map<string, string>, before: map<string, string>, environment: map<string, string>,
                   left: map<string, string>)
    requires RestoredTo(env, before, environment, left)
    ensures SameEnv(before, env) <==> KeptOthers(before, environment, left)
  {
    if SameEnv(before, env) {
      forall k: string | !SetFor(environment, k)
        ensures Lookup(left, k) == Lookup(before, k)
      {
        assert Lookup(env, k) == Lookup(before, k);
      }
    }
  }

  const GO_VERSION := "GOSECGOVERSION"

  /** The run command sets this key while it loads its configuration. Unless the
      controller passes the key itself, or its value was there before, the worker
      process keeps it. */
  lemma GoVersionStays(env: map<string, string>, before: map<string, string>, environment: map<string, string>,
                       left: map<string, string>, version: string)
    requires RestoredTo(env, before, environment, left) && Lookup(left, GO_VERSION) == Some(version)
    requires GO_VERSION !in environment && Lookup(before, GO_VERSION) != Some(version)
    ensures Lookup(env, GO_VERSION) == Some(version) && !SameEnv(before, env)
  {
    assert GO_VERSION != ENDPOINT && GO_VERSION != TOKEN by {
      assert GO_VERSION[2] != ENDPOINT[2] && GO_VERSION[2] != TOKEN[2];
    }
    assert Lookup(env, GO_VERSION) == Lookup(left, GO_VERSION);
  }

  /** The process as a run sets it: its directory, its arguments behind the name
      of the program, its environment over that of the worker, and without the
      worker's two secrets. */
  ghost predicate SetForRun(shell: Shell, env: map<string, string>, program: string, run: Payload)
    requires run.RunPayload?
  {
    && shell.cwd == run.workingDirectory && shell.args == [program] + run.args
    && Lookup(shell.env, "GOLANGCI_WORKER_ENDPOINT") == Lookup(shell.env, "GOLANGCI_WORKER_TOKEN") == None
    && (forall k: string :: k != "GOLANGCI_WORKER_ENDPOINT" && k != "GOLANGCI_WORKER_TOKEN" ==>
          Lookup(shell.env, k) == if k in run.environment then Some(run.environment[k]) else Lookup(env, k))
  }

  /** `executeWorkerRun`, around any command, which sees the process as its run
      sets it. Unless the command exits from
      within, the arguments, the directory and every key set for the run are
      back, and the other keys are as the command left them. */
  method ExecuteWorkerRun(p: Process, run: Payload, command: Shell -> Ended) returns (ran: Option<Ended>, ghost shell: Shell)
    requires run.RunPayload? && p.args != []
    modifies p
    ensures ran.Some? ==> ran.value == command(shell) && SetForRun(shell, old(p.env), old(p.args)[0], run)
    ensures "GOLANGCI_WORKER_ENDPOINT" in run.environment || "GOLANGCI_WORKER_TOKEN" in run.environment ==> ran.None?
    ensures ran.None? ==> SameEnv(old(p.env), p.env) && p.args == old(p.args) && p.cwd == old(p.cwd)
    ensures ran.Some? && ran.value.exited ==> Shell(p.env, p.args, p.cwd) == ran.value.shell
    ensures ran.Some? && !ran.value.exited ==>
              && p.args == old(p.args) && p.cwd == old(p.cwd)
              && RestoredTo(p.env, old(p.env), run.environment, ran.value.shell.env)
              && (SameEnv(old(p.env), p.env) <==> KeptOthers(old(p.env), run.environment, ran.value.shell.env))
  {
    var saved := p.ApplyWorkerProcessState(run);
    shell := Shell(p.env, p.args, p.cwd);
    if saved.None? {
      return None, shell;
    }
    var ended := command(Shell(p.env, p.args, p.cwd));
    p.env, p.args, p.cwd := ended.shell.env, ended.shell.args, ended.shell.cwd;
    ran := Some(ended);
    if !ended.exited {
      p.Restore(saved.value);
      SameEnvIff(p.env, old(p.env), run.environment, ended.shell.env);
    }
  }

  // ----- Claiming the end of the command

  /** The end of a command: its error, or the code of an exit within it. */
  datatype End = Returned(err: Option<string>) | Exited(code: int)

  /** `claims` are all attempts in order; `won` those that found the state open
      and have not sent yet; `terminal` is a channel of capacity 1. */
  datatype State = State(open: bool, claims: seq<End>, won: seq<End>, terminal: seq<End>, received: seq<End>)

  const Init := State(true, [], [], [], [])

  datatype Step = Claim(end: End) | Send | Receive

  predicate Enabled(s: State, step: Step) {
    match step
    case Claim(_) => true
    case Send => s.won != [] && s.terminal == []
    case Receive => s.terminal != [] && s.received == []
  }

  function After(s: State, step: Step): State
    requires Enabled(s, step)
  {
    match step
    case Claim(end) => s.(open := false, claims := s.claims + [end], won := if s.open then s.won + [end] else s.won)
    case Send => s.(terminal := s.terminal + [s.won[0]], won := s.won[1..])
    case Receive => s.(received := [s.terminal[0]], terminal := s.terminal[1..])
  }

  ghost predicate IsRun(s: State, steps: seq<Step>)
    decreases |steps|
  {
    steps == [] || (Enabled(s, steps[0]) && IsRun(After(s, steps[0]), steps[1..]))
  }

  ghost function RunFrom(s: State, steps: seq<Step>): State
    requires IsRun(s, steps)
    decreases |steps|
  {
    if steps == [] then s else RunFrom(After(s, steps[0]), steps[1..])
  }

  /** The first claim, and no other, is in exactly one place. */
  ghost predicate Inv(s: State) {
    && (s.open <==> s.claims == [])
    && s.won + s.terminal + s.received == s.claims[..if s.claims == [] then 0 else 1]
  }

  lemma {:induction false} RunKeepsInv(s: State, steps: seq<Step>)
    requires Inv(s) && IsRun(s, steps)
    ensures Inv(RunFrom(s, steps))
    decreases |steps|
  {
    if steps != [] {
      StepKeepsInv(s, steps[0]);
      RunKeepsInv(After(s, steps[0]), steps[1..]);
    }
  }

  lemma StepKeepsInv(s: State, step: Step)
    requires Inv(s) && Enabled(s, step)
    ensures Inv(After(s, step))
  {
    var all := s.won + s.terminal + s.received;
    assert |all| == |s.won| + |s.terminal| + |s.received| <= 1;
    var t := After(s, step);
    match step
    case Claim(end) =>
      if s.open {
        assert all == [] && t.claims == [end];
      } else {
        assert t.claims[..1] == s.claims[..1];
      }
    case Send => assert t.won + t.terminal + t.received == all;
    case Receive => assert t.won + t.terminal + t.received == all;
  }

  /** However a return and any number of exits race, the one who claimed first
      is received; nobody else sends, and sending does not block. */
  lemma FirstClaimWins(steps: seq<Step>)
    requires IsRun(Init, steps)
    ensures var s := RunFrom(Init, steps);
            && (s.received != [] ==> s.claims != [] && s.received == [s.claims[0]] && s.won == [] && s.terminal == [])
            && (s.won != [] ==> Enabled(s, Send))
            && (s.claims != [] && s.won == [] && s.terminal == [] ==> s.received == [s.claims[0]])
  {
    RunKeepsInv(Init, steps);
    var s := RunFrom(Init, steps);
    assert |s.won + s.terminal + s.received| == |s.won| + |s.terminal| + |s.received| <= 1;
    if s.won == [] && s.terminal == [] {
      assert s.won + s.terminal + s.received == s.received;
    }
    if s.received != [] {
      assert (s.won + s.terminal + s.received)[0] == s.received[0];
    }
  }
}
