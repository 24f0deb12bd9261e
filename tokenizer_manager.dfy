/**
 * `TokenizerManager` (tokenizer_manager.py): validates a model name and
 * hands out the tokenizer for it through a least-recently-used cache with
 * hit and miss counters, in the manner of Python's `functools.lru_cache`.
 *
 * The tokenizer load itself is a parameter, `loader`, whose `None` stands
 * for a failed load; `H` is the type of a loaded tokenizer.
 */
module TokenizerManager {
  import opened Common
  import opened Strings

  /** The argument given as the model name: a string, or any other value. */
  datatype NameArg = StrName(s: string) | OtherValue

  /** The `ValueError`s `get_tokenizer` raises. */
  datatype TokenizerError =
    | NotNonEmptyString
    | EmptyName
    | NameTooLong
    | BadNameFormat
    | LoadFailed(name: string)

  const MaxNameLength := 200

  /** The checks of `get_tokenizer`, in order: a non-empty string, not blank
      once stripped, at most 200 characters, neither starting nor ending with
      `/`. A valid name gives its stripped form, the cache key. */
  function ValidateModelName(arg: NameArg): (r: Result<string, TokenizerError>)
    ensures r.Success? <==>
      && arg.StrName?
      && Strip(arg.s) != ""
      && |Strip(arg.s)| <= MaxNameLength
      && Strip(arg.s)[0] != '/' && Strip(arg.s)[|Strip(arg.s)| - 1] != '/'
    ensures r.Success? ==> r.value == Strip(arg.s)
  {
    if arg.OtherValue? || arg.s == "" then Failure(NotNonEmptyString)
    else
      var name := Strip(arg.s);
      if name == "" then Failure(EmptyName)
      else if |name| > MaxNameLength then Failure(NameTooLong)
      else if StartsWith(name, "/") || name[|name| - 1] == '/' then Failure(BadNameFormat)
      else Success(name)
  }

  /** A valid name is its own key: validating the key again gives the key. */
  lemma ValidatedNameIsFixed(arg: NameArg)
    requires ValidateModelName(arg).Success?
    ensures ValidateModelName(StrName(ValidateModelName(arg).value)) == ValidateModelName(arg)
  {
    StripCharsIdempotent(arg.s, Whitespace);
  }

  /** Surrounding whitespace does not matter once the stripped name is not
      empty: both spellings give the same outcome, hence the same key. */
  lemma SurroundingSpaceIgnored(s: string)
    requires Strip(s) != ""
    ensures ValidateModelName(StrName(s)) == ValidateModelName(StrName(Strip(s)))
  {
    StripCharsIdempotent(s, Whitespace);
  }

  /** The length limit is inclusive: an otherwise acceptable name of exactly
      200 characters passes, one of 201 does not. */
  lemma LengthBoundary(s: string)
    requires Strip(s) == s && s != ""
    requires s[0] != '/' && s[|s| - 1] != '/'
    ensures |s| == MaxNameLength ==> ValidateModelName(StrName(s)) == Success(s)
    ensures |s| == MaxNameLength + 1 ==> ValidateModelName(StrName(s)) == Failure(NameTooLong)
  {
  }

  // ---------------------------------------------------------------------
  // The cache, as functions

  /** The cache entries, least recently used first, and the counters. */
  datatype CacheState<H> = CacheState(entries: seq<(string, H)>, hits: nat, misses: nat)

  predicate DistinctKeys<H>(entries: seq<(string, H)>)
  {
    forall i, j :: 0 <= i < j < |entries| ==> entries[i].0 != entries[j].0
  }

  /** Some entry is stored under `key`. */
  predicate Cached<H>(entries: seq<(string, H)>, key: string)
  {
    exists i :: 0 <= i < |entries| && entries[i].0 == key
  }

  /** The position of `key` among the entries, if it is cached. */
  function Find<H>(entries: seq<(string, H)>, key: string): (r: Option<nat>)
    ensures r.Some? ==> r.value < |entries| && entries[r.value].0 == key
    ensures r.None? <==> forall i :: 0 <= i < |entries| ==> entries[i].0 != key
  {
    if entries == [] then None
    else if entries[|entries| - 1].0 == key then Some(|entries| - 1)
    else Find(entries[..|entries| - 1], key)
  }

  /** A hit: entry `i` becomes the most recently used. */
  function Touch<H>(entries: seq<(string, H)>, i: nat): seq<(string, H)>
    requires i < |entries|
  {
    entries[..i] + entries[i + 1..] + [entries[i]]
  }

  /** Storing a new result: nothing is stored when the bound is 0; a full
      cache first drops its least recently used entry. */
  function Insert<H>(entries: seq<(string, H)>, key: string, h: H, maxSize: nat): seq<(string, H)>
  {
    if maxSize == 0 then entries
    else if |entries| < maxSize then entries + [(key, h)]
    else entries[1..] + [(key, h)]
  }

  /** One call of the cached loader for `key`: a hit returns the cached
      tokenizer, counts a hit and refreshes the entry; a miss counts a miss
      before loading, and stores the tokenizer only when the load succeeds. */
  function CachedLoad<H>(s: CacheState<H>, maxSize: nat, key: string, loader: string -> Option<H>): (CacheState<H>, Option<H>)
  {
    match Find(s.entries, key)
    case Some(i) => (CacheState(Touch(s.entries, i), s.hits + 1, s.misses), Some(s.entries[i].1))
    case None =>
      match loader(key)
      case None => (CacheState(s.entries, s.hits, s.misses + 1), None)
      case Some(h) => (CacheState(Insert(s.entries, key, h, maxSize), s.hits, s.misses + 1), Some(h))
  }

  /** The cache invariant: within its bound, one entry per key. */
  predicate WellFormed<H>(s: CacheState<H>, maxSize: nat)
  {
    |s.entries| <= maxSize && DistinctKeys(s.entries)
  }

  // ---------------------------------------------------------------------
  // Properties of the cache

  /** Every call keeps the cache within its bound with one entry per key,
      and counts exactly one hit or one miss. */
  lemma CachedLoadKeepsInvariant<H>(s: CacheState<H>, maxSize: nat, key: string, loader: string -> Option<H>)
    requires WellFormed(s, maxSize)
    ensures WellFormed(CachedLoad(s, maxSize, key, loader).0, maxSize)
    ensures var t := CachedLoad(s, maxSize, key, loader).0; t.hits + t.misses == s.hits + s.misses + 1
  {
    var e := s.entries;
    match Find(e, key)
    case Some(i) =>
      var t := Touch(e, i);
      forall a, b | 0 <= a < b < |t|
        ensures t[a].0 != t[b].0
      {
        var ia := if a < i then a else a + 1;
        var ib := if b == |t| - 1 then i else if b < i then b else b + 1;
        assert t[a] == e[ia] && t[b] == e[ib] && ia != ib;
      }
    case None =>
      match loader(key)
      case None =>
      case Some(h) =>
        var t := Insert(e, key, h, maxSize);
        if maxSize > 0 {
          var kept := if |e| < maxSize then e else e[1..];
          assert t == kept + [(key, h)];
          forall a, b | 0 <= a < b < |t|
            ensures t[a].0 != t[b].0
          {
            if b < |kept| {
              assert t[a] == kept[a] && t[b] == kept[b];
              assert kept[a].0 != kept[b].0 by {
                if |e| >= maxSize {
                  assert kept[a] == e[a + 1] && kept[b] == e[b + 1];
                }
              }
            } else {
              assert t[a] == kept[a] && kept[a] in e;
            }
          }
        }
  }

  /** After a load of `key` succeeds, the next call for `key` is a hit: it
      returns the same tokenizer, leaves the loader alone (any loader gives
      the same outcome), counts one hit and no miss, and keeps the order. */
  lemma HitAfterLoad<H>(s: CacheState<H>, maxSize: nat, key: string, loader: string -> Option<H>, next: string -> Option<H>)
    requires maxSize > 0
    requires CachedLoad(s, maxSize, key, loader).1.Some?
    ensures var t := CachedLoad(s, maxSize, key, loader).0;
      CachedLoad(t, maxSize, key, next) ==
        (CacheState(t.entries, t.hits + 1, t.misses), CachedLoad(s, maxSize, key, loader).1)
  {
    var r := CachedLoad(s, maxSize, key, loader);
    var t := r.0;
    match Find(s.entries, key) {
      case Some(i) =>
        assert t.entries == Touch(s.entries, i);
        assert t.entries[|t.entries| - 1] == (key, r.1.value);
      case None =>
        assert t.entries == Insert(s.entries, key, r.1.value, maxSize);
        assert t.entries[|t.entries| - 1] == (key, r.1.value);
    }
    var n := |t.entries| - 1;
    assert Find(t.entries, key) == Some(n);
    assert t.entries[..n] + t.entries[n + 1..] + [t.entries[n]] == t.entries;
  }

  /** A failed load stores nothing and counts a miss, so the next call for
      the same key loads again. */
  lemma FailedLoadRetries<H>(s: CacheState<H>, maxSize: nat, key: string, loader: string -> Option<H>, next: string -> Option<H>)
    requires Find(s.entries, key).None? && loader(key).None?
    ensures var t := CachedLoad(s, maxSize, key, loader);
      && t == (CacheState(s.entries, s.hits, s.misses + 1), None)
      && CachedLoad(t.0, maxSize, key, next).1 == next(key)
      && CachedLoad(t.0, maxSize, key, next).0.misses == s.misses + 2
  {
  }

  /** A new key stored in a full cache takes the place of the least
      recently used key; every other key stays. */
  lemma EvictsLeastRecent<H>(s: CacheState<H>, maxSize: nat, key: string, loader: string -> Option<H>)
    requires WellFormed(s, maxSize) && maxSize > 0 && |s.entries| == maxSize
    requires Find(s.entries, key).None? && loader(key).Some?
    ensures var t := CachedLoad(s, maxSize, key, loader).0;
      && |t.entries| == maxSize
      && t.entries[|t.entries| - 1] == (key, loader(key).value)
      && (forall k :: Cached(t.entries, k) <==> k == key || (k != s.entries[0].0 && Cached(s.entries, k)))
  {
    var e := s.entries;
    var t := CachedLoad(s, maxSize, key, loader).0;
    assert t.entries == e[1..] + [(key, loader(key).value)];
    forall k
      ensures Cached(t.entries, k) <==> k == key || (k != e[0].0 && Cached(e, k))
    {
      if Cached(t.entries, k) {
        var i :| 0 <= i < |t.entries| && t.entries[i].0 == k;
        if i < |e| - 1 {
          assert t.entries[i] == e[i + 1];
        }
      }
      if k != key && k != e[0].0 && Cached(e, k) {
        var i :| 0 <= i < |e| && e[i].0 == k;
        assert t.entries[i - 1] == e[i];
      }
      if k == key {
        assert t.entries[|t.entries| - 1].0 == k;
      }
    }
  }

  /** A hit moves the entry to the most recently used end and keeps the
      relative order of all the others. */
  lemma HitRefreshes<H>(s: CacheState<H>, maxSize: nat, key: string, loader: string -> Option<H>)
    requires Find(s.entries, key).Some?
    ensures var i := Find(s.entries, key).value; var t := CachedLoad(s, maxSize, key, loader);
      && t.1 == Some(s.entries[i].1)
      && |t.0.entries| == |s.entries|
      && t.0.entries[|t.0.entries| - 1] == s.entries[i]
      && t.0.entries[..|t.0.entries| - 1] == s.entries[..i] + s.entries[i + 1..]
      && t.0.hits == s.hits + 1 && t.0.misses == s.misses
  {
    var i := Find(s.entries, key).value;
    var rest := s.entries[..i] + s.entries[i + 1..];
    assert Touch(s.entries, i)[..|s.entries| - 1] == rest;
  }

  /** With a bound of 0 nothing is ever stored: every call is a miss that
      loads. */
  lemma ZeroBoundCachesNothing<H>(s: CacheState<H>, key: string, loader: string -> Option<H>)
    requires WellFormed(s, 0)
    ensures var t := CachedLoad(s, 0, key, loader);
      t == (CacheState([], s.hits, s.misses + 1), loader(key))
  {
  }

  // ---------------------------------------------------------------------
  // The manager

  /** What `get_cache_info` reports. */
  datatype CacheInfo = CacheInfo(hits: nat, misses: nat, size: nat, maxSize: nat)

  class TokenizerManager<H> {
    /** The `cache_size` given at construction. */
    const cacheSize: int
    /** The bound the cache uses: a negative size counts as 0. */
    const maxSize: nat
    var entries: seq<(string, H)>
    var hits: nat
    var misses: nat

    ghost predicate Valid()
      reads this
    {
      WellFormed(State(), maxSize)
    }

    function State(): CacheState<H>
      reads this
    {
      CacheState(entries, hits, misses)
    }

    constructor(cacheSize: int)
      ensures this.cacheSize == cacheSize
      ensures maxSize == if cacheSize < 0 then 0 else cacheSize
      ensures entries == [] && hits == 0 && misses == 0
      ensures Valid()
    {
      this.cacheSize := cacheSize;
      maxSize := if cacheSize < 0 then 0 else cacheSize;
      entries := [];
      hits := 0;
      misses := 0;
    }

    /** `get_tokenizer`: a rejected name raises and leaves the cache as it
        was; a valid one goes through the cached loader under its stripped
        form, and a failed load raises. */
    method GetTokenizer(arg: NameArg, loader: string -> Option<H>) returns (r: Result<H, TokenizerError>)
      requires Valid()
      modifies this
      ensures Valid()
      ensures ValidateModelName(arg).Failure? ==>
        r == Failure(ValidateModelName(arg).error) && State() == old(State())
      ensures ValidateModelName(arg).Success? ==>
        var key := ValidateModelName(arg).value;
        var (s, res) := CachedLoad(old(State()), maxSize, key, loader);
        && State() == s
        && r == (if res.Some? then Success(res.value) else Failure(LoadFailed(key)))
    {
      var valid := ValidateModelName(arg);
      if valid.Failure? {
        return Failure(valid.error);
      }
      var key := valid.value;
      CachedLoadKeepsInvariant(State(), maxSize, key, loader);
      var found := Find(entries, key);
      if found.Some? {
        var i := found.value;
        var h := entries[i].1;
        entries := entries[..i] + entries[i + 1..] + [entries[i]];
        hits := hits + 1;
        return Success(h);
      }
      misses := misses + 1;
      var loaded := loader(key);
      if loaded.None? {
        return Failure(LoadFailed(key));
      }
      if maxSize > 0 {
        if |entries| < maxSize {
          entries := entries + [(key, loaded.value)];
        } else {
          entries := entries[1..] + [(key, loaded.value)];
        }
      }
      r := Success(loaded.value);
    }

    /** `clear_cache`: drops every entry and resets both counters. */
    method ClearCache()
      modifies this
      ensures entries == [] && hits == 0 && misses == 0
      ensures Valid()
    {
      entries := [];
      hits := 0;
      misses := 0;
    }

    /** `get_cache_info`. */
    function GetCacheInfo(): (info: CacheInfo)
      requires Valid()
      reads this
      ensures info.size <= info.maxSize
      ensures info.hits == hits && info.misses == misses && info.size == |entries| && info.maxSize == maxSize
    {
      CacheInfo(hits, misses, |entries|, maxSize)
    }
  }
}
