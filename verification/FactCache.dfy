/** The call-site cache under threads: each call looks up under the lock, loads without it, and
    stores under it again. Hashes stand for the bytes they were computed from. */
module FactCache {
  import opened Options

  type Batch = seq<string>

  datatype Memo = Memo(hash: string, sites: Option<Batch>)

  type Table = map<string, Memo>

  /** What a load brings: a batch, no evidence for this request, or no way to ask. */
  datatype Answer = Sites(batch: Batch) | Absent | Unavailable

  function Found(table: Table, file: string, hash: string): Option<Memo> {
    if file in table && table[file].hash == hash then Some(table[file]) else None
  }

  function Stored(answer: Answer): Option<Batch> {
    if answer.Sites? then Some(answer.batch) else None
  }

  /** The table itself, and the two stretches of a call that hold its lock. */
  class CallSiteFacts {
    var files: Table

    constructor ()
      ensures files == map[]
    {
      files := map[];
    }

    method Lookup(file: string, hash: string) returns (hit: bool, sites: Option<Batch>)
      ensures hit <==> Found(files, file, hash).Some?
      ensures hit ==> sites == files[file].sites
    {
      if file in files && files[file].hash == hash {
        return true, files[file].sites;
      }
      return false, None;
    }

    /** An absent answer is not stored. */
    method Settle(file: string, hash: string, answer: Answer) returns (sites: Option<Batch>)
      modifies this
      ensures files == if answer.Absent? then old(files) else old(files)[file := Memo(hash, Stored(answer))]
      ensures sites == Stored(answer)
    {
      match answer
      case Absent => return None;
      case Sites(batch) =>
        files := files[file := Memo(hash, Some(batch))];
        return Some(batch);
      case Unavailable =>
        files := files[file := Memo(hash, None)];
        return None;
    }

    /** A call nobody interferes with. The answer stands for what its load would bring. */
    method SitesAt(file: string, hash: string, answer: Answer) returns (sites: Option<Batch>, asked: bool)
      modifies this
      ensures asked <==> Found(old(files), file, hash).None?
      ensures sites == if asked then Stored(answer) else old(files)[file].sites
      ensures files == if asked && !answer.Absent? then old(files)[file := Memo(hash, Stored(answer))] else old(files)
    {
      var hit, cached := Lookup(file, hash);
      if hit {
        return cached, false;
      }
      sites := Settle(file, hash, answer);
      asked := true;
    }
  }

  // ----- threads -----

  /** Where a thread is in its call. */
  datatype Thread =
    | Idle
    | Loading(file: string, hash: string)
    | Storing(file: string, hash: string, answer: Answer)
    | Returned(file: string, hash: string, sites: Option<Batch>)

  datatype Loaded = Loaded(file: string, hash: string, answer: Answer)

  /** The table, every thread's place, and the answers loads have given so far. */
  datatype State = State(table: Table, threads: map<nat, Thread>, loads: set<Loaded>)

  /** What one thread does next. */
  datatype Move = Look(file: string, hash: string) | Load(answer: Answer) | Store | Leave

  ghost predicate Enabled(s: State, t: nat, m: Move) {
    t in s.threads &&
    match m
    case Look(_, _) => s.threads[t].Idle?
    case Load(_) => s.threads[t].Loading?
    case Store => s.threads[t].Storing?
    case Leave => s.threads[t].Returned?
  }

  ghost function Next(s: State, t: nat, m: Move): State
    requires Enabled(s, t, m)
  {
    match m
    case Look(file, hash) =>
      var memo := Found(s.table, file, hash);
      s.(threads := s.threads[t := if memo.Some? then Returned(file, hash, memo.value.sites) else Loading(file, hash)])
    case Load(answer) =>
      var th := s.threads[t];
      s.(threads := s.threads[t := if answer.Absent? then Returned(th.file, th.hash, None) else Storing(th.file, th.hash, answer)],
         loads := s.loads + {Loaded(th.file, th.hash, answer)})
    case Store =>
      var th := s.threads[t];
      s.(table := s.table[th.file := Memo(th.hash, Stored(th.answer))],
         threads := s.threads[t := Returned(th.file, th.hash, Stored(th.answer))])
    case Leave => s.(threads := s.threads[t := Idle])
  }

  /** One entry per thread and move, in any order. */
  type Run = seq<(nat, Move)>

  ghost predicate Possible(s: State, run: Run)
    decreases |run|
  {
    run != [] ==> Enabled(s, run[0].0, run[0].1) && Possible(Next(s, run[0].0, run[0].1), run[1..])
  }

  ghost function After(s: State, run: Run): State
    requires Possible(s, run)
    decreases |run|
  {
    if run == [] then s else After(Next(s, run[0].0, run[0].1), run[1..])
  }

  ghost predicate Start(s: State) {
    s.table == map[] && s.loads == {} && forall t :: t in s.threads ==> s.threads[t].Idle?
  }

  // ----- answers belong to their bytes -----

  /** A batch somebody holds for a file and hash was loaded for that file and hash; so was the
      answer behind an empty memo. */
  ghost predicate Honest(s: State) {
    && (forall f :: f in s.table ==>
          var memo := s.table[f];
          if memo.sites.Some? then Loaded(f, memo.hash, Sites(memo.sites.value)) in s.loads
          else Loaded(f, memo.hash, Unavailable) in s.loads)
    && (forall t :: t in s.threads ==>
          match s.threads[t]
          case Storing(f, h, a) => Loaded(f, h, a) in s.loads && !a.Absent?
          case Returned(f, h, sites) => sites.Some? ==> Loaded(f, h, Sites(sites.value)) in s.loads
          case _ => true)
  }

  lemma StepHonest(s: State, t: nat, m: Move)
    requires Honest(s) && Enabled(s, t, m)
    ensures Honest(Next(s, t, m))
    ensures m.Load? && m.answer.Absent? ==> Next(s, t, m).table == s.table
  {
  }

  lemma {:induction false} RunHonest(s: State, run: Run)
    requires Honest(s) && Possible(s, run)
    ensures Honest(After(s, run))
    decreases |run|
  {
    if run != [] {
      StepHonest(s, run[0].0, run[0].1);
      RunHonest(Next(s, run[0].0, run[0].1), run[1..]);
    }
  }

  /** Main result: under every interleaving, whatever a call returns for a file and a hash
      came from a load for that file and that hash. */
  lemma NeverOtherBytes(s: State, run: Run, t: nat)
    requires Start(s) && Possible(s, run) && t in After(s, run).threads
    ensures var th := After(s, run).threads[t];
      th.Returned? && th.sites.Some? ==> Loaded(th.file, th.hash, Sites(th.sites.value)) in After(s, run).loads
  {
    RunHonest(s, run);
  }

  // ----- what is stored is not asked again -----

  /** The memo of the last store for the file in a run, if there is one. */
  ghost function LastStore(s: State, run: Run, file: string): Option<Memo>
    requires Possible(s, run)
    decreases |run|
  {
    if run == [] then None
    else
      var (t, m) := run[0];
      var later := LastStore(Next(s, t, m), run[1..], file);
      if later.Some? then later
      else if m.Store? && s.threads[t].file == file then Some(Memo(s.threads[t].hash, Stored(s.threads[t].answer)))
      else None
  }

  lemma {:induction false} TableIsLastStore(s: State, run: Run, file: string)
    requires Possible(s, run)
    ensures var last, table := LastStore(s, run, file), After(s, run).table;
      && (file in table <==> last.Some? || file in s.table)
      && (file in table ==> table[file] == if last.Some? then last.value else s.table[file])
    decreases |run|
  {
    if run != [] {
      TableIsLastStore(Next(s, run[0].0, run[0].1), run[1..], file);
    }
  }

  /** A lookup hits, after any run, exactly if the last store for the file carried that hash, or
      if there was none and the table held that hash at the start. It then returns what was
      stored, even if that is only that nobody could answer. */
  lemma HitsExactly(s: State, run: Run, file: string, hash: string, t: nat)
    requires Possible(s, run) && Enabled(After(s, run), t, Look(file, hash))
    ensures var memo := match LastStore(s, run, file)
                        case Some(last) => if last.hash == hash then Some(last) else None
                        case None => Found(s.table, file, hash);
      && (Next(After(s, run), t, Look(file, hash)).threads[t].Returned? <==> memo.Some?)
      && (memo.Some? ==> Next(After(s, run), t, Look(file, hash)).threads[t] == Returned(file, hash, memo.value.sites))
      && Next(After(s, run), t, Look(file, hash)).table == After(s, run).table
  {
    hide LastStore, After, Possible;
    TableIsLastStore(s, run, file);
  }

  /** A store for another hash does end it: a slow call for old bytes evicts the newer answer. */
  lemma SlowCallEvicts(b: Batch, c: Batch) returns (s: State, run: Run)
    ensures Start(s) && Possible(s, run)
    ensures Loaded("F", "new", Sites(b)) in After(s, run).loads && s.threads == After(s, run).threads
    ensures After(s, run).table == map["F" := Memo("old", Some(c))]
  {
    hide Possible, After;
    s := State(map[], map[0 := Idle, 1 := Idle], {});
    var s1 := Next(s, 0, Look("F", "old"));
    var s2 := Next(s1, 1, Look("F", "new"));
    var s3 := Next(s2, 1, Load(Sites(b)));
    var s4 := Next(s3, 1, Store);
    var s5 := Next(s4, 0, Load(Sites(c)));
    var s6 := Next(s5, 0, Store);
    var s7 := Next(s6, 1, Leave);
    var s8 := Next(s7, 0, Leave);
    run := [];
    NoMove(s8);
    run := OneMove(s7, 0, Leave, run);
    run := OneMove(s6, 1, Leave, run);
    run := OneMove(s5, 0, Store, run);
    run := OneMove(s4, 0, Load(Sites(c)), run);
    run := OneMove(s3, 1, Store, run);
    run := OneMove(s2, 1, Load(Sites(b)), run);
    run := OneMove(s1, 1, Look("F", "new"), run);
    run := OneMove(s, 0, Look("F", "old"), run);
    assert s8.threads == s.threads;
    assert s8.table == map["F" := Memo("old", Some(c))];
  }

  lemma NoMove(s: State)
    ensures Possible(s, []) && After(s, []) == s
  {
  }

  lemma OneMove(s: State, t: nat, m: Move, rest: Run) returns (run: Run)
    requires Enabled(s, t, m) && Possible(Next(s, t, m), rest)
    ensures Possible(s, run) && After(s, run) == After(Next(s, t, m), rest)
  {
    run := [(t, m)] + rest;
    assert run[1..] == rest;
  }

  // ----- member tables -----

  /** The member table keeps its lock while it loads, so an owner is asked for once. */
  class ClasspathFacts {
    var owners: map<string, Option<Batch>>

    constructor ()
      ensures owners == map[]
    {
      owners := map[];
    }

    method Members(owner: string, answer: Option<Batch>) returns (members: Option<Batch>, asked: bool)
      modifies this
      ensures asked <==> owner !in old(owners)
      ensures owners == Known(old(owners), owner, answer) && members == owners[owner]
    {
      asked := owner !in owners;
      if asked {
        owners := owners[owner := answer];
      }
      members := owners[owner];
    }
  }

  /** The table after a call. */
  function Known(owners: map<string, Option<Batch>>, owner: string, answer: Option<Batch>): (r: map<string, Option<Batch>>)
    ensures owner in r
  {
    if owner in owners then owners else owners[owner := answer]
  }

  /** What calls get one after another, where each comes with what its own load would bring. */
  function Answers(owners: map<string, Option<Batch>>, calls: seq<(string, Option<Batch>)>): (r: seq<Option<Batch>>)
    ensures |r| == |calls|
    decreases |calls|
  {
    if calls == [] then []
    else
      var (owner, answer) := calls[0];
      var next := Known(owners, owner, answer);
      [next[owner]] + Answers(next, calls[1..])
  }

  ghost predicate FirstCall(calls: seq<(string, Option<Batch>)>, i: nat)
    requires i < |calls|
  {
    forall j :: 0 <= j < i ==> calls[j].0 != calls[i].0
  }

  /** Every call for an owner gets what the first one loaded, whatever later loads would bring. */
  lemma {:induction false} FirstAnswerStays(owners: map<string, Option<Batch>>, calls: seq<(string, Option<Batch>)>, i: nat, j: nat)
    requires i <= j < |calls| && calls[i].0 == calls[j].0
    ensures calls[i].0 in owners ==> Answers(owners, calls)[j] == owners[calls[i].0]
    ensures calls[i].0 !in owners && FirstCall(calls, i) ==> Answers(owners, calls)[j] == calls[i].1
    decreases |calls|
  {
    var next := Known(owners, calls[0].0, calls[0].1);
    if j > 0 {
      var rest := calls[1..];
      if i > 0 {
        assert FirstCall(calls, i) ==> FirstCall(rest, i - 1) && calls[0].0 != calls[i].0;
        FirstAnswerStays(next, rest, i - 1, j - 1);
      } else {
        FirstAnswerStays(next, rest, j - 1, j - 1);
      }
    }
  }
}
