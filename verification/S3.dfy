/** The object store client (src/s3.rs): keys under a prefix, sorted listings, ambiguous failures. */
module S3 {
  import opened Wrappers
  import opened Order

  /** The store as the client sees it: objects by key, relative to the client's prefix. */
  type Objects = map<string, Bytes>

  /** The sorted listing of the keys under `keyPrefix`. */
  ghost function Listing(objects: Objects, keyPrefix: string): (keys: seq<string>)
  {
    SortedKeys(set k | k in objects && keyPrefix <= k)
  }

  function FullKey(prefix: string, key: string): (full: string)
  {
    if prefix == "" then key else prefix + "/" + key
  }

  /** Takes the client's prefix off a full key, if it is there. */
  function Strip(prefix: string, full: string): (key: string)
  {
    if prefix == "" then full
    else if prefix + "/" <= full then full[|prefix| + 1..]
    else full
  }

  lemma StripFullKey(prefix: string, key: string)
    ensures Strip(prefix, FullKey(prefix, key)) == key
  {
    assert prefix != "" ==> prefix + "/" + key == (prefix + "/") + key;
  }

  /** Every full key listed under a full prefix is one of ours, and stripping loses nothing. */
  lemma FullKeyStrip(prefix: string, keyPrefix: string, full: string)
    requires FullKey(prefix, keyPrefix) <= full
    ensures FullKey(prefix, Strip(prefix, full)) == full && keyPrefix <= Strip(prefix, full)
  {
    if prefix != "" {
      var start := FullKey(prefix, keyPrefix);
      assert start[..|prefix| + 1] == prefix + "/" && start[|prefix| + 1..] == keyPrefix;
      assert full[..|start|] == start;
      assert full[..|prefix| + 1] == start[..|prefix| + 1];
      assert full[|prefix| + 1..][..|keyPrefix|] == start[|prefix| + 1..];
    }
  }

  lemma PrefixOfFullKey(prefix: string, keyPrefix: string, key: string)
    requires keyPrefix <= key
    ensures FullKey(prefix, keyPrefix) <= FullKey(prefix, key)
  {
    assert key == keyPrefix + key[|keyPrefix|..];
    assert FullKey(prefix, key) == FullKey(prefix, keyPrefix) + key[|keyPrefix|..];
  }

  function Flatten(pages: seq<seq<string>>): (keys: seq<string>)
  {
    if pages == [] then [] else Flatten(pages[..|pages| - 1]) + pages[|pages| - 1]
  }

  predicate NoDuplicates(keys: seq<string>)
  {
    forall i, j :: 0 <= i < j < |keys| ==> keys[i] != keys[j]
  }

  function StripAll(prefix: string, fulls: seq<string>): (keys: seq<string>)
    ensures |keys| == |fulls|
    ensures forall i :: 0 <= i < |fulls| ==> keys[i] == Strip(prefix, fulls[i])
  {
    seq(|fulls|, i requires 0 <= i < |fulls| => Strip(prefix, fulls[i]))
  }

  lemma StripOne(prefix: string, before: seq<string>, page: seq<string>, j: nat)
    requires j < |page|
    ensures StripAll(prefix, before + page[..j + 1]) == StripAll(prefix, before + page[..j]) + [Strip(prefix, page[j])]
  {
    assert before + page[..j + 1] == (before + page[..j]) + [page[j]];
  }

  lemma NothingStripped(prefix: string, pages: seq<seq<string>>)
    ensures StripAll(prefix, Flatten(pages[..0])) == [] && pages[..|pages|] == pages
  {
  }

  lemma NoneOf(before: seq<string>, page: seq<string>)
    ensures before + page[..0] == before && page[..|page|] == page
  {
  }

  lemma FlattenOne(pages: seq<seq<string>>, i: nat)
    requires i < |pages|
    ensures Flatten(pages[..i + 1]) == Flatten(pages[..i]) + pages[i]
  {
    assert pages[..i + 1][..i] == pages[..i];
  }

  /** What becomes of an upload or deletion. A failure may be reported although it took effect. */
  datatype Outcome = Done | DoneUnconfirmed | NotDone

  /** How many of the first `n` uploads and deletions are reported as failed. */
  function FailedAmong(fate: nat -> Outcome, n: nat): (failed: nat)
  {
    if n == 0 then 0 else FailedAmong(fate, n - 1) + if fate(n - 1).Done? then 0 else 1
  }

  lemma {:induction false} NoneFailed(fate: nat -> Outcome, n: nat)
    requires forall i :: fate(i).Done?
    ensures FailedAmong(fate, n) == 0
  {
    if n > 0 {
      NoneFailed(fate, n - 1);
    }
  }

  lemma FailedNext(fate: nat -> Outcome, n: nat)
    ensures FailedAmong(fate, n + 1) == FailedAmong(fate, n) + if fate(n).Done? then 0 else 1
  {
  }

  lemma FirstSlash(prefix: string, key: string)
    requires prefix != "" && '/' !in prefix
    ensures |prefix| < |FullKey(prefix, key)| && FullKey(prefix, key)[|prefix|] == '/'
    ensures forall i :: 0 <= i < |prefix| ==> FullKey(prefix, key)[i] == prefix[i] != '/'
  {
  }

  /** The slash keeps the objects of two clients of one bucket apart. */
  lemma ClientsApart(p: string, q: string, k: string, l: string)
    requires p != "" && q != "" && p != q && '/' !in p && '/' !in q
    ensures FullKey(p, k) != FullKey(q, l)
  {
    hide FullKey;
    FirstSlash(p, k);
    FirstSlash(q, l);
    assert FullKey(p, k) == FullKey(q, l) ==> p == q || |p| != |q|;
  }

  /** These are the objects of the bucket under the prefix. */
  ghost predicate Mirrors(prefix: string, bucket: Objects, objects: Objects)
  {
    && (forall k :: FullKey(prefix, k) in bucket <==> k in objects)
    && (forall k :: k in objects ==> bucket[FullKey(prefix, k)] == objects[k])
  }

  /** The objects of the bucket under the prefix. */
  ghost function Ours(prefix: string, bucket: Objects): (objects: Objects)
  {
    var keys := set f | f in bucket && FullKey(prefix, Strip(prefix, f)) == f :: Strip(prefix, f);
    map k | k in keys :: if k in keys then bucket[FullKey(prefix, k)] else []
  }

  lemma OursMirror(prefix: string, bucket: Objects)
    ensures Mirrors(prefix, bucket, Ours(prefix, bucket))
  {
    hide FullKey, Strip;
    forall k
      ensures Strip(prefix, FullKey(prefix, k)) == k
    {
      StripFullKey(prefix, k);
    }
  }

  lemma FullKeyInjective(prefix: string, k: string, key: string)
    requires FullKey(prefix, k) == FullKey(prefix, key)
    ensures k == key
  {
    StripFullKey(prefix, k);
    StripFullKey(prefix, key);
  }

  lemma MirrorsPut(prefix: string, bucket: Objects, objects: Objects, key: string, data: Bytes)
    requires Mirrors(prefix, bucket, objects)
    ensures Mirrors(prefix, bucket[FullKey(prefix, key) := data], objects[key := data])
  {
    hide FullKey;
    var bucket', objects' := bucket[FullKey(prefix, key) := data], objects[key := data];
    forall k
      ensures FullKey(prefix, k) in bucket' <==> k in objects'
      ensures k in objects' ==> bucket'[FullKey(prefix, k)] == objects'[k]
    {
      if FullKey(prefix, k) == FullKey(prefix, key) {
        FullKeyInjective(prefix, k, key);
      }
    }
  }

  lemma MirrorsDelete(prefix: string, bucket: Objects, objects: Objects, key: string)
    requires Mirrors(prefix, bucket, objects)
    ensures Mirrors(prefix, bucket - {FullKey(prefix, key)}, objects - {key})
  {
    hide FullKey;
    forall k | FullKey(prefix, k) == FullKey(prefix, key)
      ensures k == key
    {
      FullKeyInjective(prefix, k, key);
    }
  }

  class S3Client {
    const prefix: string
    /** What will become of the n-th upload or deletion: the world's choice, all made in advance. */
    const fate: nat -> Outcome
    /** All objects of the bucket, by full key; other clients' objects included. */
    var bucket: Objects
    /** Uploads and deletions made so far. */
    var calls: nat
    /** How many of them were reported as failed. */
    ghost var failures: nat
    /** The objects under this client's prefix, by relative key. */
    ghost var objects: Objects
    /** Every durable state that a reader of the store could have met, oldest first. */
    ghost var trace: seq<Objects>

    ghost predicate Valid()
      reads this
    {
      && Mirrors(prefix, bucket, objects)
      && |trace| == calls + 1 && trace[|trace| - 1] == objects
      && failures == FailedAmong(fate, calls)
    }

    constructor (prefix: string, bucket: Objects, fate: nat -> Outcome)
      ensures Valid() && this.prefix == prefix && this.bucket == bucket && trace == [objects]
      ensures this.fate == fate && failures == 0
    {
      this.prefix := prefix;
      this.bucket := bucket;
      this.fate, calls, failures := fate, 0, 0;
      new;
      hide Mirrors;
      objects := Ours(prefix, bucket);
      trace := [objects];
      OursMirror(prefix, bucket);
    }

    /** A store that never fails has never failed. */
    lemma Unfailing()
      requires Valid() && forall n :: fate(n).Done?
      ensures failures == 0
    {
      NoneFailed(fate, calls);
    }

    /** Uploads an object. On failure the upload may or may not have taken effect. */
    method PutObject(key: string, data: Bytes) returns (ok: bool)
      requires Valid()
      modifies this
      ensures Valid() && trace == old(trace) + [objects]
      ensures objects == old(objects)[key := data] || (!ok && objects == old(objects))
      ensures bucket == old(bucket)[FullKey(prefix, key) := data] || bucket == old(bucket)
      ensures ok == fate(old(calls)).Done? && failures == old(failures) + if ok then 0 else 1
    {
      hide FailedAmong, FullKey, Mirrors;
      FailedNext(fate, calls);
      var outcome := fate(calls);
      ok := outcome.Done?;
      if !outcome.NotDone? {
        MirrorsPut(prefix, bucket, objects, key, data);
        bucket := bucket[FullKey(prefix, key) := data];
        objects := objects[key := data];
      }
      trace, calls := trace + [objects], calls + 1;
      failures := failures + if ok then 0 else 1;
    }

    method GetObject(key: string) returns (r: Result<Bytes>)
      requires Valid()
      ensures r == if key in objects then Ok(objects[key]) else Err(Missing)
    {
      var full := FullKey(prefix, key);
      if full in bucket {
        r := Ok(bucket[full]);
      } else {
        r := Err(Missing);
      }
    }

    /** Deletes an object. On failure the deletion may or may not have taken effect. */
    method DeleteObject(key: string) returns (ok: bool)
      requires Valid()
      modifies this
      ensures Valid() && trace == old(trace) + [objects]
      ensures objects == old(objects) - {key} || (!ok && objects == old(objects))
      ensures bucket == old(bucket) - {FullKey(prefix, key)} || bucket == old(bucket)
      ensures ok == fate(old(calls)).Done? && failures == old(failures) + if ok then 0 else 1
    {
      hide FailedAmong, FullKey, Mirrors;
      FailedNext(fate, calls);
      var outcome := fate(calls);
      ok := outcome.Done?;
      if !outcome.NotDone? {
        MirrorsDelete(prefix, bucket, objects, key);
        bucket := bucket - {FullKey(prefix, key)};
        objects := objects - {key};
      }
      trace, calls := trace + [objects], calls + 1;
      failures := failures + if ok then 0 else 1;
    }

    /** The raw bucket listing: every full key under `fullPrefix` once, in pages, in any order. */
    method BucketList(fullPrefix: string) returns (pages: seq<seq<string>>)
      ensures NoDuplicates(Flatten(pages))
      ensures forall f :: f in Flatten(pages) <==> f in bucket && fullPrefix <= f
    {
      pages := [];
      var todo := set f | f in bucket && fullPrefix <= f;
      while todo != {}
        invariant NoDuplicates(Flatten(pages))
        invariant forall f :: f in Flatten(pages) || f in todo <==> f in bucket && fullPrefix <= f
        invariant forall f :: f in todo ==> f !in Flatten(pages)
        decreases |todo|
      {
        var f :| f in todo;
        var startPage: bool := *;
        ghost var before := Flatten(pages);
        if startPage || pages == [] {
          var more := pages + [[f]];
          assert more[..|more| - 1] == pages;
          pages := more;
        } else {
          var last := pages[|pages| - 1];
          var more := pages[..|pages| - 1] + [last + [f]];
          assert more[..|more| - 1] == pages[..|pages| - 1];
          pages := more;
        }
        assert Flatten(pages) == before + [f];
        todo := todo - {f};
      }
    }

    /** The keys under `keyPrefix`, relative to the client's prefix and sorted. */
    method ListKeys(keyPrefix: string) returns (keys: seq<string>)
      requires Valid()
      ensures keys == Listing(objects, keyPrefix)
    {
      hide Listing, Sort, Flatten, Strip, StripAll, NoDuplicates, FullKey, Valid;
      var pages := BucketList(FullKey(prefix, keyPrefix));
      NothingStripped(prefix, pages);
      keys := [];
      var i := 0;
      while i < |pages|
        invariant 0 <= i <= |pages|
        invariant keys == StripAll(prefix, Flatten(pages[..i]))
      {
        var page := pages[i];
        var j := 0;
        NoneOf(Flatten(pages[..i]), page);
        while j < |page|
          invariant 0 <= j <= |page|
          invariant keys == StripAll(prefix, Flatten(pages[..i]) + page[..j])
        {
          var rel := Strip(prefix, page[j]);
          StripOne(prefix, Flatten(pages[..i]), page, j);
          keys := keys + [rel];
          j := j + 1;
        }
        FlattenOne(pages, i);
        assert page[..j] == page;
        i := i + 1;
      }
      assert pages[..i] == pages;
      ListedKeys(keyPrefix, Flatten(pages));
      keys := Sort(keys);
    }

    lemma ListedKeys(keyPrefix: string, fulls: seq<string>)
      requires Valid() && NoDuplicates(fulls)
      requires forall f :: f in fulls <==> f in bucket && FullKey(prefix, keyPrefix) <= f
      ensures Sort(StripAll(prefix, fulls)) == Listing(objects, keyPrefix)
    {
      hide FullKey, Strip, Sort, SortedKeys, FailedAmong;
      var keys := StripAll(prefix, fulls);
      var wanted := set k | k in objects && keyPrefix <= k;
      forall i, j | 0 <= i < j < |keys|
        ensures keys[i] != keys[j]
      {
        assert fulls[i] in fulls && fulls[j] in fulls;
        FullKeyStrip(prefix, keyPrefix, fulls[i]);
        FullKeyStrip(prefix, keyPrefix, fulls[j]);
      }
      forall k
        ensures k in keys <==> k in wanted
      {
        if k in keys {
          var i :| 0 <= i < |keys| && keys[i] == k;
          assert fulls[i] in fulls;
          FullKeyStrip(prefix, keyPrefix, fulls[i]);
        }
        if k in wanted {
          PrefixOfFullKey(prefix, keyPrefix, k);
          StripFullKey(prefix, k);
          var i :| 0 <= i < |fulls| && fulls[i] == FullKey(prefix, k);
          assert keys[i] == k;
        }
      }
      SortGivesListing(keys, wanted);
    }

    /**
     Deletes the keys one by one, stopping at the first failure. Every state on the way lacks
     exactly an initial part of the keys.
     */
    method DeleteObjects(keys: seq<string>) returns (ok: bool)
      requires Valid()
      modifies this
      ensures Valid() && old(trace) <= trace
      ensures ok ==> objects == Without(old(objects), keys)
      ensures failures == old(failures) + if ok then 0 else 1
      ensures forall t :: |old(trace)| <= t < |trace| ==> PartlyDeleted(old(objects), keys, trace[t])
    {
      hide Mirrors, FailedAmong, Without, PartlyDeleted;
      WithoutNone(objects, keys);
      var i := 0;
      while i < |keys|
        invariant 0 <= i <= |keys|
        invariant Valid() && old(trace) <= trace && failures == old(failures)
        invariant objects == Without(old(objects), keys[..i])
        invariant forall t :: |old(trace)| <= t < |trace| ==> PartlyDeleted(old(objects), keys, trace[t])
      {
        WithoutStep(old(objects), keys, i);
        ok := DeleteObject(keys[i]);
        if !ok {
          return;
        }
        i := i + 1;
      }
      assert keys[..i] == keys;
      ok := true;
    }
  }

  ghost function Without(objects: Objects, keys: seq<string>): (r: Objects)
  {
    map k | k in objects && k !in keys :: if k in objects && k !in keys then objects[k] else []
  }

  /** The state after deleting some initial part of the keys. */
  ghost predicate PartlyDeleted(objects: Objects, keys: seq<string>, state: Objects)
  {
    exists n :: 0 <= n <= |keys| && state == Without(objects, keys[..n])
  }

  lemma WithoutNone(objects: Objects, keys: seq<string>)
    ensures Without(objects, keys[..0]) == objects
  {
  }

  lemma WithoutStep(objects: Objects, keys: seq<string>, i: nat)
    requires i < |keys|
    ensures Without(objects, keys[..i]) - {keys[i]} == Without(objects, keys[..i + 1])
    ensures PartlyDeleted(objects, keys, Without(objects, keys[..i]))
    ensures PartlyDeleted(objects, keys, Without(objects, keys[..i + 1]))
  {
    assert keys[..i + 1] == keys[..i] + [keys[i]];
  }
}
