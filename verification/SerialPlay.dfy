/** Requests served one after another are one of the interleavings, so what is proved of every interleaving holds of
    them, and what is false of them is false of interleavings. */
module SerialPlay {
  import opened Collections
  import opened Schema
  import opened Machine
  import opened Requests
  import opened Serial
  import opened Interleaving
  import opened Races
  import opened KeyRaces

  /** Anyone may send any request, but only a user of type shop a price list. */
  predicate MaySend(users: map<Id, User>, r: Request) {
    r.ImportPriceList? ==> r.user in users && users[r.user].userType == ShopUser
  }

  /** The events by which a request starts: an import goes through the queue. */
  function Arrival(w: World, r: Request): seq<Event> {
    if r.ImportPriceList? then [PartnerUpdate(r.user, r.doc), StartImport(|w.queue|)] else [Receive(r)]
  }

  lemma ArrivalAddsJob(w: World, r: Request)
    requires MaySend(w.db.users, r)
    ensures Play(w, Arrival(w, r)) == w.(jobs := w.jobs + [NewJob(r)])
  {
    if r.ImportPriceList? {
      PlayTwo(w, PartnerUpdate(r.user, r.doc), StartImport(|w.queue|));
      var queued := w.queue + [(r.user, r.doc)];
      assert queued[..|w.queue|] == w.queue && queued[|w.queue| + 1..] == [];
    } else {
      PlayTwo(w, Receive(r), Receive(r));
    }
  }

  /** A job that was killed, or has come to its end, does nothing more. */
  lemma {:induction false} KilledDoesNothing(w: World, j: nat, n: nat)
    requires j < |w.jobs|
    ensures var killed := Next(w, Kill(j));
      && Play(killed, Ticks(j, n)) == killed
      && killed == w.(jobs := killed.jobs) && |killed.jobs| == |w.jobs|
      && forall k | 0 <= k < |w.jobs| && k != j :: killed.jobs[k] == w.jobs[k]
    decreases n
  {
    if n == 0 {
    } else {
      var killed := Next(w, Kill(j));
      KilledDoesNothing(w, j, n - 1);
      assert Ticks(j, n)[0] == Tick(j) && Ticks(j, n)[1..] == Ticks(j, n - 1);
      assert Next(killed, Tick(j)) == killed;
    }
  }

  /** The events that serve a request alone and kill it after `cut` statements. */
  function Serving(w: World, r: Request, cut: nat): seq<Event> {
    Arrival(w, r) + (Ticks(|w.jobs|, |Issued(r, cut)|) + [Kill(|w.jobs|)])
  }

  /** From `a` to `b` only job `j` has moved, and the store is now `db`. */
  ghost predicate OnlyJobMoved(a: World, b: World, j: nat, db: Db) {
    && b.db == db && b.queue == a.queue && |b.jobs| == |a.jobs|
    && forall k | 0 <= k < |a.jobs| && k != j :: b.jobs[k] == a.jobs[k]
  }

  lemma TicksServe(w: World, j: nat, r: Request, cut: nat)
    requires j < |w.jobs| && w.jobs[j] == NewJob(r)
    ensures OnlyJobMoved(w, Play(w, Ticks(j, |Issued(r, cut)|)), j, ServeUpTo(w.db, r, cut).db)
  {
    TicksRunProgram(w, j, |Issued(r, cut)|);
    assert Program(r)[..|Issued(r, cut)|] == Issued(r, cut);
  }

  lemma TicksThenKill(w: World, j: nat, r: Request, cut: nat)
    requires j < |w.jobs| && w.jobs[j] == NewJob(r)
    ensures OnlyJobMoved(w, Play(w, Ticks(j, |Issued(r, cut)|) + [Kill(j)]), j, ServeUpTo(w.db, r, cut).db)
  {
    var ticks := Ticks(j, |Issued(r, cut)|);
    TicksServe(w, j, r, cut);
    PlayConcat(w, ticks, [Kill(j)]);
    PlayTwo(Play(w, ticks), Kill(j), Kill(j));
  }

  lemma ServedByEvents(w: World, r: Request, cut: nat)
    requires MaySend(w.db.users, r)
    ensures var next := Play(w, Serving(w, r, cut));
      && next.db == ServeUpTo(w.db, r, cut).db && next.queue == w.queue && |next.jobs| == |w.jobs| + 1
      && forall k | 0 <= k < |w.jobs| :: next.jobs[k] == w.jobs[k]
  {
    PlayConcat(w, Arrival(w, r), Ticks(|w.jobs|, |Issued(r, cut)|) + [Kill(|w.jobs|)]);
    ArrivalAddsJob(w, r);
    TicksThenKill(w.(jobs := w.jobs + [NewJob(r)]), |w.jobs|, r, cut);
  }

  lemma {:induction false} ExecKeepsUsers(c: Run, program: seq<Stmt>)
    ensures Exec(c, program).db.users == c.db.users
    decreases |program|
  {
    if program == [] {
    } else {
      StepFramed(c, program[0]);
      ExecKeepsUsers(Step(c, program[0]), program[1..]);
    }
  }

  /** Every serial run, each of its requests finished, failed or killed midway, is an interleaved run. */
  lemma {:induction false} SerialRunIsInterleaved(w: World, calls: seq<Call>) returns (events: seq<Event>)
    requires forall c | c in calls :: MaySend(w.db.users, c.request)
    ensures Play(w, events).db == After(w.db, calls) && Play(w, events).queue == w.queue
    decreases |calls|
  {
    events := [];
    if calls != [] {
      var r, cut := calls[0].request, calls[0].cut;
      assert calls[0] in calls;
      ServedByEvents(w, r, cut);
      ExecKeepsUsers(Begin(w.db), Issued(r, cut));
      var rest := SerialRunIsInterleaved(Play(w, Serving(w, r, cut)), calls[1..]);
      PlayConcat(w, Serving(w, r, cut), rest);
      events := Serving(w, r, cut) + rest;
    }
  }
}
