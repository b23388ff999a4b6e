/** The key-value stores of domains and the suffix lookup over dotted string keys. */
module Db {
  import opened Text

  datatype StoreError = RocksDB | FromUtf8

  /** A name used as a key always ends with a dot. */
  function NormalizeName(name: string): string {
    if EndsWithDot(name) then name else name + "."
  }

  function NonEmptyParts(parts: seq<string>): seq<string> {
    if parts == [] then []
    else (if parts[0] == "" then [] else [parts[0]]) + NonEmptyParts(parts[1..])
  }

  /** Labels of a queried name: its non-empty parts between dots. */
  function LabelsOf(domain: string): seq<string> {
    NonEmptyParts(Split(domain, '.'))
  }

  function StarKey(labels: seq<string>): string {
    "*." + Join(labels, '.') + "."
  }

  /** Keys tried for a name with these labels, from the `i`-th label on, most specific first. */
  function StarKeys(labels: seq<string>, i: nat): seq<string>
    requires i <= |labels|
    decreases |labels| - i
  {
    if i == |labels| then [] else [StarKey(labels[i..])] + StarKeys(labels, i + 1)
  }

  function Keys(domain: string): seq<string> {
    var labels := LabelsOf(domain);
    [domain] + if |labels| == 0 then [] else StarKeys(labels, 1)
  }

  /** First key that is present; reading a key in `bad` fails. */
  function FirstHit(m: map<string, string>, bad: map<string, StoreError>, keys: seq<string>): Result<Option<string>, StoreError> {
    if keys == [] then Ok(None)
    else if keys[0] in bad then Err(bad[keys[0]])
    else if keys[0] in m then Ok(Some(m[keys[0]]))
    else FirstHit(m, bad, keys[1..])
  }

  /** The first key that is present or cannot be read decides; without one, nothing is found. */
  lemma {:induction false} FirstHitDecides(m: map<string, string>, bad: map<string, StoreError>, keys: seq<string>)
    ensures (forall k :: 0 <= k < |keys| ==> keys[k] !in bad && keys[k] !in m) ==> FirstHit(m, bad, keys) == Ok(None)
    ensures forall k: nat :: k < |keys| && FirstTouched(m, bad, keys, k) ==>
              FirstHit(m, bad, keys) == if keys[k] in bad then Err(bad[keys[k]]) else Ok(Some(m[keys[k]]))
  {
    if keys == [] {
    } else {
      FirstHitDecides(m, bad, keys[1..]);
      forall k: nat | 0 < k < |keys| && FirstTouched(m, bad, keys, k)
        ensures FirstTouched(m, bad, keys[1..], k - 1)
      {
      }
    }
  }

  ghost predicate FirstTouched(m: map<string, string>, bad: map<string, StoreError>, keys: seq<string>, k: nat)
    requires k < |keys|
  {
    && (keys[k] in bad || keys[k] in m)
    && forall l :: 0 <= l < k ==> keys[l] !in bad && keys[l] !in m
  }

  /** What `get` answers from an open store that can be read. */
  function Lookup(m: map<string, string>, domain: string): Option<string> {
    match FirstHit(m, map[], Keys(domain))
    case Ok(hit) => hit
    case Err(_) => None
  }

  /** `destroyed` counts how often the directory behind the store has been destroyed. */
  class DomainStore {
    var db: Option<map<string, string>>
    var destroyed: nat

    constructor ()
      ensures db == Some(map[]) && destroyed == 0
    {
      db, destroyed := Some(map[]), 0;
    }

    /** `written` is the outcome of the write to the underlying database. */
    method Put(domain: string, written: bool) returns (r: Result<(), StoreError>)
      modifies this`db
      ensures old(db) == None ==> db == None && r == Ok(())
      ensures old(db).Some? && written ==> r == Ok(()) && db == Some(old(db).value[NormalizeName(domain) := "true"])
      ensures old(db).Some? && !written ==> r == Err(RocksDB) && db == old(db)
    {
      if db.Some? {
        if !written {
          return Err(RocksDB);
        }
        var key := NormalizeName(domain);
        db := Some(db.value[key := "true"]);
      }
      return Ok(());
    }

    method PutAlias(domain: string, alias: string, written: bool) returns (r: Result<(), StoreError>)
      modifies this`db
      ensures old(db) == None ==> db == None && r == Ok(())
      ensures old(db).Some? && written ==>
        r == Ok(()) && db == Some(old(db).value[NormalizeName(domain) := NormalizeName(alias)])
      ensures old(db).Some? && !written ==> r == Err(RocksDB) && db == old(db)
    {
      if db.Some? {
        if !written {
          return Err(RocksDB);
        }
        var key := NormalizeName(domain);
        db := Some(db.value[key := NormalizeName(alias)]);
      }
      return Ok(());
    }

    /** The first loop of `get`: the exact key, then one star key per proper suffix. */
    static method CandidateKeys(domain: string) returns (keys: seq<string>)
      ensures keys == Keys(domain)
    {
      var parts := LabelsOf(domain);
      keys := [domain];
      var i := 1;
      while i < |parts|
        invariant 1 <= i
        invariant |parts| == 0 ==> keys == [domain]
        invariant |parts| > 0 ==> i <= |parts| && [domain] + StarKeys(parts, 1) == keys + StarKeys(parts, i)
      {
        assert parts[..|parts|] == parts;
        var starKey := "*." + Join(parts[i..|parts|], '.') + ".";
        assert StarKeys(parts, i) == [starKey] + StarKeys(parts, i + 1);
        keys := keys + [starKey];
        i := i + 1;
      }
    }

    /** `bad` holds the keys whose read, or whose decoding as text, fails. */
    method Get(domain: string, bad: map<string, StoreError>) returns (r: Result<Option<string>, StoreError>)
      ensures r == if db.Some? then FirstHit(db.value, bad, Keys(domain)) else Ok(None)
    {
      if db.Some? {
        var m := db.value;
        var keys := CandidateKeys(domain);
        var k := 0;
        while k < |keys|
          invariant 0 <= k <= |keys|
          invariant FirstHit(m, bad, keys) == FirstHit(m, bad, keys[k..])
        {
          var key := keys[k];
          assert keys[k..][1..] == keys[k + 1..];
          if key in bad {
            return Err(bad[key]);
          }
          if key in m {
            return Ok(Some(m[key]));
          }
          k := k + 1;
        }
      }
      return Ok(None);
    }

    method Contains(domain: string, bad: map<string, StoreError>) returns (r: Result<bool, StoreError>)
      ensures r == match (if db.Some? then FirstHit(db.value, bad, Keys(domain)) else Ok(None))
                   case Ok(hit) => Ok(hit.Some?)
                   case Err(e) => Err(e)
    {
      var hit := Get(domain, bad);
      match hit {
        case Ok(o) => return Ok(o.Some?);
        case Err(e) => return Err(e);
      }
    }

    /** Dropping a store takes its database away and destroys it, the first time only. */
    method Drop()
      modifies this
      ensures db == None
      ensures destroyed == old(destroyed) + if old(db).Some? then 1 else 0
    {
      if db.Some? {
        db := None;
        destroyed := destroyed + 1;
      }
    }
  }

  /** The contents of the three stores of one database. */
  datatype Tables = Tables(blacklist: map<string, string>, whitelist: map<string, string>, rewrites: map<string, string>)

  const EMPTY: Tables := Tables(map[], map[], map[])

  /** This store has been destroyed, once. */
  ghost predicate Gone(store: DomainStore)
    reads store
  {
    store.db == None && store.destroyed == 1
  }

  class AdblockDB {
    const blacklist: DomainStore
    const whitelist: DomainStore
    const rewrites: DomainStore

    /** The three stores are different ones and none has been dropped. */
    ghost predicate Open()
      reads blacklist, whitelist, rewrites
    {
      && blacklist != whitelist && blacklist != rewrites && whitelist != rewrites
      && blacklist.db.Some? && whitelist.db.Some? && rewrites.db.Some?
      && blacklist.destroyed == whitelist.destroyed == rewrites.destroyed == 0
    }

    /** Each of the three stores has been destroyed, once. */
    ghost predicate Destroyed()
      reads blacklist, whitelist, rewrites
    {
      Gone(blacklist) && Gone(whitelist) && Gone(rewrites)
    }

    ghost function Contents(): Tables
      requires Open()
      reads blacklist, whitelist, rewrites
    {
      Tables(blacklist.db.value, whitelist.db.value, rewrites.db.value)
    }

    constructor (blacklist: DomainStore, whitelist: DomainStore, rewrites: DomainStore)
      ensures this.blacklist == blacklist && this.whitelist == whitelist && this.rewrites == rewrites
    {
      this.blacklist, this.whitelist, this.rewrites := blacklist, whitelist, rewrites;
    }

    /** `failAt` is the number of the store whose creation fails, if any; the stores that
        were created before it are dropped on the way out. `made` are the stores created. */
    static method Create(failAt: Option<nat>) returns (r: Result<AdblockDB, StoreError>, ghost made: seq<DomainStore>)
      ensures r.Ok? <==> failAt == None || failAt.value >= 3
      ensures r.Ok? ==> fresh(r.value) && r.value.Open() && r.value.Contents() == EMPTY
      ensures r.Ok? ==> fresh(r.value.blacklist) && fresh(r.value.whitelist) && fresh(r.value.rewrites)
      ensures r.Ok? ==> made == [r.value.blacklist, r.value.whitelist, r.value.rewrites]
      ensures r.Err? ==> |made| == failAt.value && forall k :: 0 <= k < |made| ==> Gone(made[k])
      ensures forall a, b :: 0 <= a < b < |made| ==> made[a] != made[b]
    {
      made := [];
      if failAt == Some(0) {
        return Err(RocksDB), made;
      }
      var blacklist := new DomainStore();
      made := [blacklist];
      if failAt == Some(1) {
        blacklist.Drop();
        return Err(RocksDB), made;
      }
      var whitelist := new DomainStore();
      made := [blacklist, whitelist];
      if failAt == Some(2) {
        blacklist.Drop();
        whitelist.Drop();
        return Err(RocksDB), made;
      }
      var rewrites := new DomainStore();
      made := [blacklist, whitelist, rewrites];
      var db := new AdblockDB(blacklist, whitelist, rewrites);
      return Ok(db), made;
    }

    /** Dropping a database drops its three stores. */
    method Drop()
      requires Open()
      modifies blacklist, whitelist, rewrites
      ensures Destroyed()
    {
      blacklist.Drop();
      whitelist.Drop();
      rewrites.Drop();
    }
  }
}
