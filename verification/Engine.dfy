/** The engine object: one published database, replaced as a whole by an update. */
module Engine {
  import opened Text
  import opened Db
  import opened Rules
  import opened Compiler
  import opened Meaning

  datatype EngineError = DBError(error: StoreError) | LoadConfigError

  /** What the outside world does during one update: the store whose creation fails, the
      configuration if it could be loaded, and the writes that fail. */
  datatype UpdateInput = UpdateInput(createFails: Option<nat>, config: Option<Config>, failed: set<nat>)

  /** Keys whose reads fail, store by store. */
  datatype ReadFaults = ReadFaults(
    blacklist: map<string, StoreError>,
    whitelist: map<string, StoreError>,
    rewrites: map<string, StoreError>)

  const NO_FAULTS: ReadFaults := ReadFaults(map[], map[], map[])

  /** `get_redirect` over the contents of a database. */
  function RedirectResult(t: Tables, name: string, faults: ReadFaults): Result<Option<string>, EngineError> {
    match FirstHit(t.rewrites, faults.rewrites, Keys(name))
    case Ok(hit) => Ok(hit)
    case Err(e) => Err(DBError(e))
  }

  /** `is_blocked` over the contents of a database: a whitelisted name is not blocked, and
      the blacklist is not even read for it. */
  function BlockedResult(t: Tables, name: string, faults: ReadFaults): Result<bool, EngineError> {
    match FirstHit(t.whitelist, faults.whitelist, Keys(name))
    case Err(e) => Err(DBError(e))
    case Ok(Some(_)) => Ok(false)
    case Ok(None) =>
      match FirstHit(t.blacklist, faults.blacklist, Keys(name))
      case Err(e) => Err(DBError(e))
      case Ok(hit) => Ok(hit.Some?)
  }

  lemma {:induction false} FirstHitReads(m: map<string, string>, keys: seq<string>)
    ensures FirstHit(m, map[], keys).Ok?
  {
    if keys == [] {
    } else {
      FirstHitReads(m, keys[1..]);
    }
  }

  /** Without read errors the two questions are the lookups that decisions are made of. */
  lemma {:induction false} ResultsAreLookups(t: Tables, name: string)
    ensures RedirectResult(t, name, NO_FAULTS) == Ok(Lookup(t.rewrites, name))
    ensures BlockedResult(t, name, NO_FAULTS) == Ok(IsBlocked(t, name))
  {
    FirstHitReads(t.rewrites, Keys(name));
    FirstHitReads(t.whitelist, Keys(name));
    FirstHitReads(t.blacklist, Keys(name));
  }

  /** No source of the configuration could be fetched. */
  ghost predicate NothingFetched(config: Config) {
    && (forall i :: 0 <= i < |config.blacklist| ==> config.blacklist[i].text == None)
    && (forall i :: 0 <= i < |config.whitelist| ==> config.whitelist[i].text == None)
    && (forall i :: 0 <= i < |config.overrides| ==> config.overrides[i].text == None)
  }

  lemma {:induction false} FailedFetchGivesNothing<F, T>(sources: seq<Source<F>>, load: Source<F> -> seq<T>)
    requires forall i :: 0 <= i < |sources| ==> load(sources[i]) == []
    ensures FlatMap(sources, load) == []
  {
    if sources == [] {
    } else {
      FailedFetchGivesNothing(sources[..|sources| - 1], load);
    }
  }

  /** A source that could not be fetched contributes no rule. */
  lemma {:induction false} UnfetchedIsEmpty(ps: LineParsers, config: Config)
    ensures forall i :: 0 <= i < |config.blacklist| && config.blacklist[i].text == None ==> LoadBlacklist(ps)(config.blacklist[i]) == []
    ensures forall i :: 0 <= i < |config.whitelist| && config.whitelist[i].text == None ==> LoadWhitelist(ps)(config.whitelist[i]) == []
    ensures forall i :: 0 <= i < |config.overrides| && config.overrides[i].text == None ==> LoadRewrites(ps)(config.overrides[i]) == []
    ensures NothingFetched(config) ==> Writes(ps, config) == []
  {
    if NothingFetched(config) {
      FailedFetchGivesNothing(config.blacklist, LoadBlacklist(ps));
      FailedFetchGivesNothing(config.whitelist, LoadWhitelist(ps));
      FailedFetchGivesNothing(config.overrides, LoadRewrites(ps));
    }
  }

  class AdblockEngine {
    var db: AdblockDB

    ghost predicate Valid()
      reads this, db.blacklist, db.whitelist, db.rewrites
    {
      db.Open()
    }

    constructor (db: AdblockDB)
      requires db.Open()
      ensures this.db == db && Valid()
    {
      this.db := db;
    }

    /** A new engine answers from three empty stores. */
    static method New(createFails: Option<nat>) returns (r: Result<AdblockEngine, EngineError>)
      ensures r.Ok? <==> createFails == None || createFails.value >= 3
      ensures r.Ok? ==> fresh(r.value) && r.value.Valid() && r.value.db.Contents() == EMPTY
    {
      var created, _ := AdblockDB.Create(createFails);
      match created {
        case Err(e) => return Err(DBError(e));
        case Ok(db) =>
          var engine := new AdblockEngine(db);
          return Ok(engine);
      }
    }

    /** A private database is created, filled from the configuration and swapped in; when its
        creation or the configuration fails, the published database stays as it is. A source
        that could not be fetched does not fail the update. With no request reading it, the
        replaced database is dropped at once. `made` are the stores created. */
    method RunUpdate(ps: LineParsers, input: UpdateInput) returns (r: Result<(), EngineError>, ghost made: seq<DomainStore>)
      requires Valid()
      modifies this, db.blacklist, db.whitelist, db.rewrites
      ensures Valid()
      ensures r.Ok? <==> (input.createFails == None || input.createFails.value >= 3) && input.config.Some?
      ensures r.Err? ==> db == old(db) && db.Contents() == old(db.Contents())
      ensures r.Ok? ==> fresh(db) && db.Contents() == Apply(EMPTY, Writes(ps, input.config.value), input.failed)
      ensures r.Ok? ==> fresh(db.blacklist) && fresh(db.whitelist) && fresh(db.rewrites) && old(db).Destroyed()
      ensures r.Ok? ==> made == [db.blacklist, db.whitelist, db.rewrites]
      ensures r.Err? ==> |made| == if input.createFails.Some? && input.createFails.value < 3 then input.createFails.value else 3
      ensures r.Err? ==> forall k :: 0 <= k < |made| ==> Gone(made[k])
      ensures r.Ok? && input.failed == {} ==>
        forall name :: IsName(name) ==> Decide(db.Contents(), Absolute(name)) == Evaluate(ps, input.config.value, name)
      ensures r.Ok? && (NothingFetched(input.config.value) || forall i :: 0 <= i < |Writes(ps, input.config.value)| ==> i in input.failed) ==>
        forall name :: IsName(name) ==> Decide(db.Contents(), Absolute(name)) == Forwarded
    {
      var created, stores := AdblockDB.Create(input.createFails);
      made := stores;
      match created {
        case Err(e) => return Err(DBError(e)), made;
        case Ok(newDb) =>
          match input.config {
            case None =>
              newDb.Drop();
              return Err(LoadConfigError), made;
            case Some(config) =>
              Compile(ps, config, newDb, input.failed);
              var oldDb := db;
              db := newDb;
              oldDb.Drop();
              forall name | input.failed == {} && IsName(name)
                ensures Decide(db.Contents(), Absolute(name)) == Evaluate(ps, config, name)
              {
                CompilationPreservesMeaning(ps, config, name);
              }
              UnfetchedIsEmpty(ps, config);
              forall name | IsName(name) && forall i :: 0 <= i < |Writes(ps, config)| ==> i in input.failed
                ensures Decide(db.Contents(), Absolute(name)) == Forwarded
              {
                AllWritesFail(Writes(ps, config), input.failed, name);
              }
              return Ok(()), made;
          }
      }
    }

    method GetRedirect(name: string, faults: ReadFaults) returns (r: Result<Option<string>, EngineError>)
      requires Valid()
      ensures r == RedirectResult(db.Contents(), name, faults)
    {
      var alias := db.rewrites.Get(name, faults.rewrites);
      match alias {
        case Err(e) => return Err(DBError(e));
        case Ok(hit) => return Ok(hit);
      }
    }

    method IsBlockedName(name: string, faults: ReadFaults) returns (r: Result<bool, EngineError>)
      requires Valid()
      ensures r == BlockedResult(db.Contents(), name, faults)
    {
      var allowed := db.whitelist.Contains(name, faults.whitelist);
      if allowed.Err? {
        return Err(DBError(allowed.error));
      }
      if allowed.value {
        return Ok(false);
      }
      var denied := db.blacklist.Contains(name, faults.blacklist);
      if denied.Err? {
        return Err(DBError(denied.error));
      }
      if denied.value {
        return Ok(true);
      }
      return Ok(false);
    }
  }
}
