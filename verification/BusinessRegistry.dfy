/** The business registry: database tables, a cache in front of the two lookups, and operations that invalidate
    it.  Every cache entry, positive or negative, always equals the direct database join. */
module BusinessRegistry {
  import opened Basics

  datatype Result<+T> = Ok(value: T) | Raised(reason: string)

  datatype Business = Business(
    id: string, name: string, registrationNumber: Option<string>, status: string,
    verifiedAt: Option<int>, tenantId: string)

  datatype Lookup = Lookup(matched: bool, business: Option<Business>, isVerified: bool)

  function RowToLookup(row: Option<Business>): Lookup {
    match row
    case None => Lookup(false, None, false)
    case Some(b) => Lookup(true, Some(b), b.status == "verified")
  }

  /** Upper-casing touches exactly the small letters, so codes are the same exactly when they agree up to case. */
  lemma UpperMeans(s: string, t: string)
    ensures |Upper(s)| == |s|
    ensures forall i :: 0 <= i < |s| ==> Upper(s)[i] == if 'a' <= s[i] <= 'z' then ('A' + (s[i] - 'a')) else s[i]
    ensures Upper(s) == Upper(t) <==>
      |s| == |t| && forall i :: 0 <= i < |s| ==> s[i] == t[i] || UpperChar(s[i]) == t[i] || s[i] == UpperChar(t[i])
  {
    if Upper(s) == Upper(t) {
      assert |Upper(s)| == |Upper(t)|;
      forall i | 0 <= i < |s| ensures s[i] == t[i] || UpperChar(s[i]) == t[i] || s[i] == UpperChar(t[i]) {
        assert Upper(s)[i] == Upper(t)[i];
      }
    }
  }

  // ---------- Cache values and keys ----------

  datatype CacheValue = Negative | Payload(matched: bool, isVerified: bool, business: Option<Business>)

  function Encode(l: Lookup): CacheValue {
    if !l.matched then Negative else Payload(l.matched, l.isVerified, l.business)
  }

  function Decode(v: CacheValue): Lookup {
    match v
    case Negative => Lookup(false, None, false)
    case Payload(matched, isVerified, business) => Lookup(matched, business, isVerified)
  }

  /** What the database can answer survives the cache encoding. */
  lemma EncodingRoundTrips(row: Option<Business>)
    ensures Decode(Encode(RowToLookup(row))) == RowToLookup(row)
  {
  }

  const NS_MSISDN := "biz:msisdn:"
  const NS_SHORTCODE := "biz:shortcode:"

  function UpperChar(c: char): char {
    if 'a' <= c <= 'z' then c - ' ' else c
  }

  function Upper(s: string): string {
    seq(|s|, i requires 0 <= i < |s| => UpperChar(s[i]))
  }

  lemma UpperIsIdempotent(s: string)
    ensures Upper(Upper(s)) == Upper(s)
  {
  }

  function MsisdnKey(m: string): string { NS_MSISDN + m }

  function ShortcodeKey(code: string): string { NS_SHORTCODE + Upper(code) }

  lemma KeysAreDistinct(m: string, m': string, c: string, c': string)
    ensures MsisdnKey(m) != ShortcodeKey(c)
    ensures MsisdnKey(m) == MsisdnKey(m') ==> m == m'
    ensures ShortcodeKey(c) == ShortcodeKey(c') ==> Upper(c) == Upper(c')
  {
    assert MsisdnKey(m)[4] == 'm' && ShortcodeKey(c)[4] == 's';
    assert MsisdnKey(m)[|NS_MSISDN|..] == m && MsisdnKey(m')[|NS_MSISDN|..] == m';
    assert ShortcodeKey(c)[|NS_SHORTCODE|..] == Upper(c) && ShortcodeKey(c')[|NS_SHORTCODE|..] == Upper(c');
  }

  // ---------- The database ----------

  /** business_msisdns and business_shortcodes carry a unique index on the number and the code. */
  datatype Database = Database(
    businesses: map<string, Business>, msisdns: map<string, string>, shortcodes: map<string, string>)

  ghost predicate ForeignKeysHold(db: Database) {
    && (forall m :: m in db.msisdns ==> db.msisdns[m] in db.businesses)
    && (forall c :: c in db.shortcodes ==> db.shortcodes[c] in db.businesses)
    && (forall b :: b in db.businesses ==> db.businesses[b].id == b)
  }

  function Join(db: Database, link: map<string, string>, key: string): Lookup {
    RowToLookup(
      if key in link && link[key] in db.businesses then Some(db.businesses[link[key]]) else None)
  }

  function DirectMsisdn(db: Database, m: string): Lookup { Join(db, db.msisdns, m) }

  function DirectShortcode(db: Database, code: string): Lookup { Join(db, db.shortcodes, Upper(code)) }

  /** What a lookup says about the tables: found exactly for linked numbers, the linked business, verified by status. */
  lemma LookupMeans(db: Database, m: string, code: string)
    requires ForeignKeysHold(db)
    ensures var l := DirectMsisdn(db, m);
      && (l.matched <==> m in db.msisdns)
      && (l.matched ==> l.business == Some(db.businesses[db.msisdns[m]]))
      && (l.isVerified <==> m in db.msisdns && db.businesses[db.msisdns[m]].status == "verified")
    ensures var l := DirectShortcode(db, code);
      && (l.matched <==> Upper(code) in db.shortcodes)
      && (l.matched ==> l.business == Some(db.businesses[db.shortcodes[Upper(code)]]))
      && (l.isVerified <==> Upper(code) in db.shortcodes && db.businesses[db.shortcodes[Upper(code)]].status == "verified")
  {
  }

  /** After a verification every number and code of the business looks up as verified, and the others as before. */
  lemma VerifiedLooksVerified(db: Database, id: string, now: int, m: string, code: string)
    requires ForeignKeysHold(db) && id in db.businesses
    ensures var after := db.(businesses := db.businesses[id := Verified(db.businesses[id], now)]);
      && (m in db.msisdns && db.msisdns[m] == id ==> DirectMsisdn(after, m).isVerified)
      && (m !in db.msisdns || db.msisdns[m] != id ==> DirectMsisdn(after, m) == DirectMsisdn(db, m))
      && (Upper(code) in db.shortcodes && db.shortcodes[Upper(code)] == id ==> DirectShortcode(after, code).isVerified)
      && (Upper(code) !in db.shortcodes || db.shortcodes[Upper(code)] != id ==>
            DirectShortcode(after, code) == DirectShortcode(db, code))
  {
  }

  function Verified(b: Business, now: int): Business {
    b.(status := "verified", verifiedAt := Some(now))
  }

  /** Every entry says what the database says now. */
  ghost predicate Coherent(db: Database, cache: map<string, CacheValue>) {
    && (forall m :: MsisdnKey(m) in cache ==> Decode(cache[MsisdnKey(m)]) == DirectMsisdn(db, m))
    && (forall c :: ShortcodeKey(c) in cache ==> Decode(cache[ShortcodeKey(c)]) == DirectShortcode(db, c))
  }

  lemma DropKeepsCoherent(db: Database, cache: map<string, CacheValue>, keys: set<string>)
    requires Coherent(db, cache)
    ensures Coherent(db, cache - keys)
  {
  }

  lemma FillMsisdnKeepsCoherent(db: Database, cache: map<string, CacheValue>, m: string)
    requires Coherent(db, cache)
    ensures Coherent(db, cache[MsisdnKey(m) := Encode(DirectMsisdn(db, m))])
  {
    hide MsisdnKey, ShortcodeKey;
    var l := DirectMsisdn(db, m);
    var after := cache[MsisdnKey(m) := Encode(l)];
    assert Decode(Encode(l)) == l;
    forall m' | MsisdnKey(m') in after ensures Decode(after[MsisdnKey(m')]) == DirectMsisdn(db, m') {
      KeysAreDistinct(m, m', "", "");
    }
    forall c | ShortcodeKey(c) in after ensures Decode(after[ShortcodeKey(c)]) == DirectShortcode(db, c) {
      KeysAreDistinct(m, m, c, c);
    }
  }

  lemma FillShortcodeKeepsCoherent(db: Database, cache: map<string, CacheValue>, code: string)
    requires Coherent(db, cache)
    ensures Coherent(db, cache[ShortcodeKey(code) := Encode(DirectShortcode(db, code))])
  {
    hide MsisdnKey, ShortcodeKey;
    var l := DirectShortcode(db, code);
    var after := cache[ShortcodeKey(code) := Encode(l)];
    assert Decode(Encode(l)) == l;
    forall m | MsisdnKey(m) in after ensures Decode(after[MsisdnKey(m)]) == DirectMsisdn(db, m) {
      KeysAreDistinct(m, m, code, code);
    }
    forall c | ShortcodeKey(c) in after ensures Decode(after[ShortcodeKey(c)]) == DirectShortcode(db, c) {
      KeysAreDistinct("", "", code, c);
    }
  }

  /** Keys of all cached lookups that can see a business. */
  ghost predicate CoversBusiness(db: Database, id: string, keys: set<string>) {
    && (forall m :: m in db.msisdns && db.msisdns[m] == id ==> MsisdnKey(m) in keys)
    && (forall c :: Upper(c) in db.shortcodes && db.shortcodes[Upper(c)] == id ==> ShortcodeKey(c) in keys)
  }

  /** Rewriting one business is safe once every key that can see it is gone. */
  lemma UpdateBusinessKeepsCoherent(db: Database, cache: map<string, CacheValue>, b: Business, keys: set<string>)
    requires Coherent(db, cache) && CoversBusiness(db, b.id, keys)
    ensures Coherent(db.(businesses := db.businesses[b.id := b]), cache - keys)
  {
    hide MsisdnKey, ShortcodeKey, Upper;
  }

  /** Why atomicity matters: a lookup that read the join before a verification and writes the cache after the
      purge leaves a stale entry, unless the verification changed nothing. */
  lemma InterleavedFillIsStale(db: Database, cache: map<string, CacheValue>, b: Business, m: string, now: int, keys: set<string>)
    requires Coherent(db, cache) && CoversBusiness(db, b.id, keys)
    requires b.id in db.businesses && db.businesses[b.id] == b && m in db.msisdns && db.msisdns[m] == b.id
    ensures
      Coherent(db.(businesses := db.businesses[b.id := Verified(b, now)]),
               (cache - keys)[MsisdnKey(m) := Encode(DirectMsisdn(db, m))])
      <==> Verified(b, now) == b
  {
    var db' := db.(businesses := db.businesses[b.id := Verified(b, now)]);
    UpdateBusinessKeepsCoherent(db, cache, Verified(b, now), keys);
    var after := (cache - keys)[MsisdnKey(m) := Encode(DirectMsisdn(db, m))];
    assert Decode(after[MsisdnKey(m)]) == RowToLookup(Some(b));
    assert DirectMsisdn(db', m) == RowToLookup(Some(Verified(b, now)));
    if Verified(b, now) == b {
      FillMsisdnKeepsCoherent(db', cache - keys, m);
    }
  }

  // ---------- The registry ----------

  class Registry {
    var db: Database
    const caching: bool
    var cache: map<string, CacheValue>

    ghost predicate Valid()
      reads this
    {
      ForeignKeysHold(db) && Coherent(db, cache) && (!caching ==> cache == map[])
    }

    constructor (caching: bool)
      ensures Valid() && db == Database(map[], map[], map[]) && cache == map[] && this.caching == caching
    {
      this.caching := caching;
      db, cache := Database(map[], map[], map[]), map[];
    }

    /** A cache entry may expire at any time. */
    method Expire(key: string)
      requires Valid()
      modifies this`cache
      ensures Valid() && cache == old(cache) - {key}
    {
      DropKeepsCoherent(db, cache, {key});
      cache := cache - {key};
    }

    method CreateBusiness(id: string, name: string, registrationNumber: Option<string>, tenantId: string)
      returns (r: Result<Business>)
      requires Valid()
      modifies this
      ensures Valid() && cache == old(cache)
      ensures r.Raised? <==> id in old(db).businesses
      ensures r.Raised? ==> db == old(db)
      ensures r.Ok? ==> r.value == Business(id, name, registrationNumber, "pending", None, tenantId)
      ensures r.Ok? ==> db == old(db).(businesses := old(db).businesses[id := r.value])
    {
      if id in db.businesses { return Raised("duplicate key"); }
      var b := Business(id, name, registrationNumber, "pending", None, tenantId);
      UpdateBusinessKeepsCoherent(db, cache, b, {});
      assert cache - {} == cache;
      db := db.(businesses := db.businesses[id := b]);
      return Ok(b);
    }

    /** Remove the cached lookups of every number and short code linked to the business. */
    method PurgeBusinessCache(id: string) returns (ghost keys: set<string>)
      modifies this`cache
      ensures caching ==> CoversBusiness(db, id, keys)
      ensures cache == old(cache) - keys
      ensures !caching ==> keys == {}
    {
      keys := {};
      if !caching { return; }
      var ms := set m | m in db.msisdns && db.msisdns[m] == id;
      var cs := set c | c in db.shortcodes && db.shortcodes[c] == id;
      var todo := ms;
      while todo != {}
        invariant todo <= ms && cache == old(cache) - keys
        invariant forall m :: m in ms && m !in todo ==> MsisdnKey(m) in keys
        decreases |todo|
      {
        var m :| m in todo;
        cache := cache - {MsisdnKey(m)};
        keys := keys + {MsisdnKey(m)};
        todo := todo - {m};
      }
      todo := cs;
      while todo != {}
        invariant todo <= cs && cache == old(cache) - keys
        invariant forall m :: m in ms ==> MsisdnKey(m) in keys
        invariant forall c :: c in cs && c !in todo ==> ShortcodeKey(c) in keys
        decreases |todo|
      {
        var c :| c in todo;
        cache := cache - {ShortcodeKey(c)};
        keys := keys + {ShortcodeKey(c)};
        todo := todo - {c};
      }
      forall c | Upper(c) in cs ensures ShortcodeKey(c) in keys {
        UpperIsIdempotent(c);
        assert ShortcodeKey(Upper(c)) == ShortcodeKey(c);
      }
    }

    method VerifyBusiness(id: string, now: int) returns (r: Result<Business>)
      requires Valid()
      modifies this
      ensures Valid()
      ensures r.Raised? <==> id !in old(db).businesses
      ensures r.Raised? ==> db == old(db) && cache == old(cache)
      ensures r.Ok? ==> r.value == Verified(old(db).businesses[id], now)
      ensures r.Ok? ==> db == old(db).(businesses := old(db).businesses[id := r.value])
    {
      if id !in db.businesses { return Raised("business not found"); }
      var b := Verified(db.businesses[id], now);
      ghost var before, cached := db, cache;
      db := db.(businesses := db.businesses[id := b]);
      ghost var keys := PurgeBusinessCache(id);
      if caching {
        UpdateBusinessKeepsCoherent(before, cached, b, keys);
      }
      return Ok(b);
    }

    method AddMsisdn(id: string, msisdn: string) returns (r: Result<()>)
      requires Valid()
      modifies this
      ensures Valid()
      ensures r.Ok? <==> id in old(db).businesses && (msisdn in old(db).msisdns ==> old(db).msisdns[msisdn] == id)
      ensures r.Ok? ==> db == old(db).(msisdns := old(db).msisdns[msisdn := id])
      ensures r.Raised? ==> db == old(db) && cache == old(cache)
    {
      if id !in db.businesses { return Raised("foreign key violation"); }
      if msisdn in db.msisdns && db.msisdns[msisdn] != id { return Raised("unique violation"); }
      forall m' ensures MsisdnKey(msisdn) == MsisdnKey(m') ==> msisdn == m' { KeysAreDistinct(msisdn, m', "", ""); }
      db := db.(msisdns := db.msisdns[msisdn := id]);
      if caching { cache := cache - {MsisdnKey(msisdn)}; }
      return Ok(());
    }

    method AddShortcode(id: string, code: string) returns (r: Result<()>)
      requires Valid()
      modifies this
      ensures Valid()
      ensures r.Ok? <==>
        id in old(db).businesses && (Upper(code) in old(db).shortcodes ==> old(db).shortcodes[Upper(code)] == id)
      ensures r.Ok? ==> db == old(db).(shortcodes := old(db).shortcodes[Upper(code) := id])
      ensures r.Raised? ==> db == old(db) && cache == old(cache)
    {
      if id !in db.businesses { return Raised("foreign key violation"); }
      if Upper(code) in db.shortcodes && db.shortcodes[Upper(code)] != id { return Raised("unique violation"); }
      db := db.(shortcodes := db.shortcodes[Upper(code) := id]);
      if caching { cache := cache - {ShortcodeKey(code)}; }
      return Ok(());
    }

    /** The cached lookup answers exactly what the uncached one would. */
    method LookupMsisdn(msisdn: string) returns (r: Lookup)
      requires Valid()
      modifies this`cache
      ensures Valid()
      ensures r == DirectMsisdn(db, msisdn)
      ensures caching ==> MsisdnKey(msisdn) in cache && cache == old(cache)[MsisdnKey(msisdn) := cache[MsisdnKey(msisdn)]]
    {
      if caching && MsisdnKey(msisdn) in cache { return Decode(cache[MsisdnKey(msisdn)]); }
      r := DirectMsisdn(db, msisdn);
      if caching {
        FillMsisdnKeepsCoherent(db, cache, msisdn);
        cache := cache[MsisdnKey(msisdn) := Encode(r)];
      }
    }

    method LookupShortcode(shortcode: string) returns (r: Lookup)
      requires Valid()
      modifies this`cache
      ensures Valid()
      ensures r == DirectShortcode(db, shortcode)
    {
      var code := Upper(shortcode);
      UpperIsIdempotent(shortcode);
      if caching && ShortcodeKey(code) in cache { return Decode(cache[ShortcodeKey(code)]); }
      r := DirectShortcode(db, code);
      if caching {
        FillShortcodeKeepsCoherent(db, cache, code);
        cache := cache[ShortcodeKey(code) := Encode(r)];
      }
    }
  }
}
