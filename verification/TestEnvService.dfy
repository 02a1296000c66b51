/** `testenv.py` as it runs: the fold over the log, and the operations that append to it. */
module TestEnvService {
  import opened Prelude
  import opened TestEnv
  import opened TestEnvRuns

  /** `derive`: state, queue and pending requests are updated row by row. */
  method DeriveState(rows: seq<Row>) returns (env: Env)
    ensures env == Derive(rows)
  {
    hide Step;
    var state, demand, commit, stopped := LIVRE, None, None, false;
    var queue: seq<Waiting> := [];
    var republish, reset := None, None;
    assert rows[..0] == [];
    for i := 0 to |rows|
      invariant Env(state, demand, commit, stopped, queue, republish, reset) == Derive(rows[..i])
    {
      assert rows[..i + 1] == rows[..i] + [rows[i]];
      DeriveSnoc(rows[..i], rows[i]);
      var after := OneRow(Env(state, demand, commit, stopped, queue, republish, reset), i, rows[i]);
      state, demand, commit, stopped := after.state, after.demand, after.commit, after.stopped;
      queue, republish, reset := after.queue, after.republish, after.reset;
    }
    assert rows[..|rows|] == rows;
    return Env(state, demand, commit, stopped, queue, republish, reset);
  }

  /** The body of the loop of `derive`. */
  method OneRow(env: Env, at: nat, row: Row) returns (after: Env)
    ensures after == Step(env, at, row)
  {
    hide OnRequest;
    after := env;
    match row {
      case Request(human, _, _, _) =>
        if human {
          after := OnRequest(env, at, row);
        }
      case Publishing(d, commit) =>
        var rest := DropFromQueue(env.queue, d);
        after := Env(PUBLICANDO, d, commit, false, rest, None, env.reset);
      case Published(d, commit) =>
        if d == env.demand {
          after := after.(state := OCUPADO, commit := if commit.Some? then commit else env.commit);
        }
      case Failed(d) =>
        if d == env.demand && env.state == PUBLICANDO {
          after := after.(state := FALHOU);
        }
      case Released(d) =>
        if d.Some? && d == env.demand {
          after := after.(state := LIVRE, demand := None, commit := None, stopped := false);
          if env.republish == d {
            after := after.(republish := None);
          }
        }
        var rest := DropFromQueue(env.queue, d);
        after := after.(queue := rest);
      case DataReset(_) => after := after.(reset := None);
      case _ =>
    }
  }

  /** `drop`. */
  method DropFromQueue(queue: seq<Waiting>, d: Option<string>) returns (rest: seq<Waiting>)
    ensures rest == Drop(queue, d)
  {
    rest := [];
    assert queue[..0] == [];
    for i := 0 to |queue|
      invariant rest == Drop(queue[..i], d)
    {
      assert queue[..i + 1][..i] == queue[..i];
      if Some(queue[i].demand) != d {
        rest := rest + [queue[i]];
      }
    }
    assert queue[..|queue|] == queue;
  }

  class Service {
    var log: seq<Row>

    constructor (log: seq<Row>)
      ensures this.log == log
    {
      this.log := log;
    }

    method Append(row: Row)
      modifies this
      ensures log == old(log) + [row]
    {
      log := log + [row];
    }

    /**
     * `request` to publish: refused without an open review, and recorded only when the demand is not waiting, being
     * published or about to be republished already.
     */
    method RequestPublish(d: string) returns (r: Result<bool, int>)
      modifies this
      ensures r.Err? <==> old(OpenReview(log, d)).None?
      ensures r.Err? ==> r.error == 409 && log == old(log)
      ensures r == Ok(true) ==> log == old(log) + [Request(true, "publish", Some(d), false)]
      ensures r == Ok(false) ==> log == old(log)
      ensures r == Ok(false) <==>
              old(OpenReview(log, d)).Some? &&
              (old(Pending(Derive(log), d))
               || (old(Derive(log)).demand == Some(d) && old(Derive(log)).state == PUBLICANDO))
      ensures Named(old(log)) && r == Ok(true) ==> Pending(Derive(log), d)
    {
      hide Derive, OpenReview, Requested, InOrder, Drop;
      var env := DeriveState(log);
      if OpenReview(log, d).None? {
        return Err(409);
      }
      if Queued(env.queue, d) || env.republish == Some(d) || (env.demand == Some(d) && env.state == PUBLICANDO) {
        return Ok(false);
      }
      var row := Request(true, "publish", Some(d), false);
      DeriveSnoc(log, row);
      if Named(log) {
        DeriveIsCoherent(log);
        assert Waiting(d, |log|) in env.queue + [Waiting(d, |log|)];
      }
      Append(row);
      return Ok(true);
    }

    /** `publish`: true when it published. */
    method Publish(d: string, requireRequest: bool, commit: Option<string>, o: Outside) returns (ok: bool)
      modifies this
      ensures log == TestEnvRuns.Publish(old(log), d, requireRequest, commit, o)
      ensures ok == (Starts(old(log), d, requireRequest, o) && o.deployed)
    {
      hide Derive, OpenReview, Queued;
      var env := DeriveState(log);
      var pending := Queued(env.queue, d) || env.republish == Some(d);
      if requireRequest && !pending {
        Append(Failed(Some(d)));
        return false;
      }
      if env.demand.Some? && env.demand != Some(d) && env.state != LIVRE {
        return false;
      }
      var rv := OpenReview(log, d);
      if rv.Some? && o.pr == UNREACHABLE {
        Append(Failed(Some(d)));
        return false;
      }
      if rv.None? || o.pr == NOT_OPEN {
        Append(if pending && env.demand != Some(d) then Released(Some(d)) else Failed(Some(d)));
        return false;
      }
      if o.publisherWorktree {
        Append(Failed(Some(d)));
        return false;
      }
      var sha := Some(commit.GetOr(o.pr.head));
      Append(Publishing(Some(d), sha));
      Append(if o.deployed then Published(Some(d), sha) else Failed(Some(d)));
      return o.deployed;
    }

    /** `do_release`. */
    method DoRelease(d: string)
      modifies this
      ensures log == Release(old(log), d)
    {
      hide Derive, Queued;
      var env := DeriveState(log);
      if env.demand == Some(d) || Queued(env.queue, d) {
        Append(Released(Some(d)));
      }
    }

    /** `do_reset`: true when the data were erased. */
    method DoReset(o: Outside) returns (ok: bool)
      modifies this
      ensures log == ResetData(old(log), o)
      ensures ok == (old(Derive(log)).reset.Some? && o.configOk && o.downOk)
    {
      hide Derive, TestEnvRuns.Publish;
      var env := DeriveState(log);
      if env.reset.None? {
        return false;
      }
      if !o.configOk {
        Append(Failed(if env.demand.Some? then env.demand else env.reset.value));
        return false;
      }
      if !o.downOk {
        Append(Failed(env.demand));
        return false;
      }
      Append(DataReset(env.demand));
      if env.demand.Some? && env.commit.Some? {
        var _ := Publish(env.demand.value, false, env.commit, o);
      }
      return true;
    }

    /** The obsolete entries are released in queue order. */
    method DropObsolete(queue: seq<Waiting>)
      modifies this
      ensures log == ReleaseObsolete(old(log), queue)
    {
      hide Live;
      var rows := log;
      assert queue[..0] == [];
      for i := 0 to |queue|
        invariant log == ReleaseObsolete(rows, queue[..i])
      {
        assert queue[..i + 1][..i] == queue[..i];
        if !Live(rows, queue[i].demand) {
          Append(Released(Some(queue[i].demand)));
        }
      }
      assert queue[..|queue|] == queue;
    }

    /** One round of `reconcile`. */
    method OneRound(o: Outside) returns (acted: bool, again: bool)
      modifies this
      ensures Turn(log, acted, again) == Round(old(log), o)
    {
      hide Derive, TestEnvRuns.Publish, ResetData, ReleaseObsolete, Release, Live, Starts, Queued, IsClosed;
      var env := DeriveState(log);
      if env.state == PUBLICANDO {
        Append(Failed(env.demand));
        return true, true;
      }
      if env.demand.Some? && IsClosed(log, env.demand.value) {
        DoRelease(env.demand.value);
        return true, true;
      }
      if exists q <- env.queue :: !Live(log, q.demand) {
        DropObsolete(env.queue);
        return true, true;
      }
      if env.reset.Some? {
        var _ := DoReset(o);
        return true, true;
      }
      if env.republish.Some? {
        if env.demand.Some? {
          var _ := Publish(env.demand.value, true, None, o);
        }
        return true, false;
      }
      if env.state == LIVRE && env.queue != [] {
        var head := env.queue[0].demand;
        var ok := Publish(head, true, None, o);
        var after := DeriveState(log);
        return true, !ok && after.state == LIVRE && !Queued(after.queue, head);
      }
      return false, false;
    }

    /** `reconcile`: at most twelve rounds. */
    method Reconcile(outside: nat -> Outside) returns (acted: bool, settled: bool)
      modifies this
      ensures Ending(log, acted, settled) == Rounds(old(log), outside, 0, ROUNDS)
    {
      hide Round, Rounds;
      acted := false;
      ghost var start := log;
      for i := 0 to ROUNDS
        invariant acted == (i > 0)
        invariant Rounds(start, outside, 0, ROUNDS) == After(acted, Rounds(log, outside, i, ROUNDS - i))
      {
        UnfoldRounds(log, outside, i, ROUNDS - i);
        var did, again := OneRound(outside(i));
        if !again {
          return acted || did, true;
        }
        acted := true;
      }
      NoRounds(log, outside, ROUNDS);
      return true, false;
    }
  }

  lemma NoRounds(rows: seq<Row>, outside: nat -> Outside, i: nat)
    ensures Rounds(rows, outside, i, 0) == Ending(rows, false, false)
  {
  }

  /** An ending as seen from earlier rounds. */
  ghost function After(acted: bool, e: Ending): Ending {
    Ending(e.rows, acted || e.acted, e.settled)
  }

  lemma UnfoldRounds(rows: seq<Row>, outside: nat -> Outside, i: nat, n: nat)
    requires n > 0
    ensures var turn := Round(rows, outside(i));
            Rounds(rows, outside, i, n) ==
            if turn.again then After(true, Rounds(turn.rows, outside, i + 1, n - 1))
            else Ending(turn.rows, turn.acted, true)
  {
    hide Round;
  }
}
