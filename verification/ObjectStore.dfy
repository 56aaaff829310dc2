/**
 Key prefixes of an object store: listing in pages, moving a prefix by copy-then-delete, deleting a
 prefix in batches. Any request to the store may fail, which ends the call half-way.
 */
module ObjectStore {
  import opened Prelude

  /** One bucket: contents by key. */
  type Objects = map<string, string>

  const DELETE_BATCH: nat := 1000

  function Under(objects: Objects, prefix: string): set<string> {
    set k | k in objects && prefix <= k
  }

  function NewKey(oldPrefix: string, newPrefix: string, key: string): string
    requires oldPrefix <= key
  {
    newPrefix + key[|oldPrefix|..]
  }

  predicate Disjoint(a: string, b: string) {
    !(a <= b) && !(b <= a)
  }

  /** What a completed move leaves: every key under the old prefix renamed, all others as they were. */
  function Moved(objects: Objects, oldPrefix: string, newPrefix: string): Objects {
    map k | k in objects.Keys - Under(objects, oldPrefix) + Renamed(objects, oldPrefix, newPrefix)
      :: if newPrefix <= k && oldPrefix + k[|newPrefix|..] in objects then objects[oldPrefix + k[|newPrefix|..]]
         else if k in objects then objects[k] else ""
  }

  function Renamed(objects: Objects, oldPrefix: string, newPrefix: string): set<string> {
    set k | k in Under(objects, oldPrefix) :: NewKey(oldPrefix, newPrefix, k)
  }

  /** The key with this suffix has not been touched, has been copied, or has been moved. */
  ghost predicate SuffixOk(before: Objects, now: Objects, oldPrefix: string, newPrefix: string, suffix: string) {
    var o, n := oldPrefix + suffix, newPrefix + suffix;
    if o in before then
      && (o in now ==> now[o] == before[o])
      && (|| (n in now && now[n] == before[o])
          || (o in now && (n in now <==> n in before) && (n in now ==> now[n] == before[n])))
    else
      o !in now && (n in now <==> n in before) && (n in now ==> now[n] == before[n])
  }

  ghost predicate OutsideOk(before: Objects, now: Objects, oldPrefix: string, newPrefix: string, k: string) {
    !(oldPrefix <= k) && !(newPrefix <= k) ==> (k in now <==> k in before) && (k in now ==> now[k] == before[k])
  }

  /** `now` is some way into a move of `before`: nothing is lost and nothing else is touched. */
  ghost predicate Underway(before: Objects, now: Objects, oldPrefix: string, newPrefix: string) {
    && (forall s {:trigger SuffixOk(before, now, oldPrefix, newPrefix, s)}
        :: SuffixOk(before, now, oldPrefix, newPrefix, s))
    && (forall k {:trigger OutsideOk(before, now, oldPrefix, newPrefix, k)}
        :: OutsideOk(before, now, oldPrefix, newPrefix, k))
  }

  // ---------------------------------------------------------------- what a move means

  lemma KeySplit(prefix: string, k: string)
    requires prefix <= k
    ensures k == prefix + k[|prefix|..]
  {
  }

  lemma SuffixOf(prefix: string, suffix: string)
    ensures prefix <= prefix + suffix && (prefix + suffix)[|prefix|..] == suffix
  {
  }

  /** Two prefixes of one key are comparable. */
  lemma PrefixesCompare(a: string, b: string, suffix: string)
    requires b <= a + suffix
    ensures a <= b || b <= a
  {
    assert forall i :: 0 <= i < |b| && i < |a| ==> b[i] == (a + suffix)[i] == a[i];
  }

  lemma DisjointKeys(a: string, b: string, suffix: string)
    requires Disjoint(a, b)
    ensures !(b <= a + suffix)
  {
    if b <= a + suffix { PrefixesCompare(a, b, suffix); }
  }

  /** During a move every object is under its old or its new key, with its content. */
  lemma NothingLost(before: Objects, now: Objects, oldPrefix: string, newPrefix: string, k: string)
    requires Underway(before, now, oldPrefix, newPrefix) && k in before && oldPrefix <= k
    ensures (k in now && now[k] == before[k])
            || (NewKey(oldPrefix, newPrefix, k) in now && now[NewKey(oldPrefix, newPrefix, k)] == before[k])
  {
    KeySplit(oldPrefix, k);
    assert SuffixOk(before, now, oldPrefix, newPrefix, k[|oldPrefix|..]);
  }

  lemma MovedSuffix(before: Objects, oldPrefix: string, newPrefix: string, suffix: string)
    requires Disjoint(oldPrefix, newPrefix)
    ensures var m, o, n := Moved(before, oldPrefix, newPrefix), oldPrefix + suffix, newPrefix + suffix;
            && o !in m && (n in m <==> o in before || n in before)
            && (n in m ==> m[n] == if o in before then before[o] else before[n])
  {
    var o, n := oldPrefix + suffix, newPrefix + suffix;
    SuffixOf(oldPrefix, suffix);
    SuffixOf(newPrefix, suffix);
    DisjointKeys(newPrefix, oldPrefix, suffix);
    DisjointKeys(oldPrefix, newPrefix, suffix);
    if o in before {
      assert o in Under(before, oldPrefix) && NewKey(oldPrefix, newPrefix, o) == n;
    }
    forall k | k in Under(before, oldPrefix)
      ensures NewKey(oldPrefix, newPrefix, k) != o && (NewKey(oldPrefix, newPrefix, k) == n ==> k == o)
    {
      KeySplit(oldPrefix, k);
      SuffixOf(newPrefix, k[|oldPrefix|..]);
    }
  }

  lemma MovedOutside(before: Objects, oldPrefix: string, newPrefix: string, k: string)
    requires !(oldPrefix <= k) && !(newPrefix <= k)
    ensures var m := Moved(before, oldPrefix, newPrefix);
            (k in m <==> k in before) && (k in m ==> m[k] == before[k])
  {
    forall u | u in Under(before, oldPrefix)
      ensures NewKey(oldPrefix, newPrefix, u) != k
    {
      SuffixOf(newPrefix, u[|oldPrefix|..]);
    }
  }

  /** A move that has emptied the old prefix is the completed move. */
  lemma EmptiedIsMoved(before: Objects, now: Objects, oldPrefix: string, newPrefix: string)
    requires Disjoint(oldPrefix, newPrefix) && Underway(before, now, oldPrefix, newPrefix)
             && Under(now, oldPrefix) == {}
    ensures now == Moved(before, oldPrefix, newPrefix)
  {
    var m := Moved(before, oldPrefix, newPrefix);
    forall k
      ensures (k in now <==> k in m) && (k in now ==> now[k] == m[k])
    {
      SameAt(before, now, oldPrefix, newPrefix, k);
    }
  }

  lemma SameAt(before: Objects, now: Objects, oldPrefix: string, newPrefix: string, k: string)
    requires Disjoint(oldPrefix, newPrefix) && Underway(before, now, oldPrefix, newPrefix)
             && Under(now, oldPrefix) == {}
    ensures var m := Moved(before, oldPrefix, newPrefix); (k in now <==> k in m) && (k in now ==> now[k] == m[k])
  {
    hide Moved;
    if oldPrefix <= k {
      KeySplit(oldPrefix, k);
      MovedSuffix(before, oldPrefix, newPrefix, k[|oldPrefix|..]);
      assert k !in Under(now, oldPrefix);
    } else if newPrefix <= k {
      var suffix := k[|newPrefix|..];
      KeySplit(newPrefix, k);
      SuffixOf(oldPrefix, suffix);
      MovedSuffix(before, oldPrefix, newPrefix, suffix);
      assert oldPrefix + suffix !in Under(now, oldPrefix);
      assert SuffixOk(before, now, oldPrefix, newPrefix, suffix);
    } else {
      MovedOutside(before, oldPrefix, newPrefix, k);
      assert OutsideOk(before, now, oldPrefix, newPrefix, k);
    }
  }

  /** Interrupted moves compose: a retry that starts half-way is still half-way into the first move. */
  lemma UnderwayTrans(a: Objects, b: Objects, c: Objects, oldPrefix: string, newPrefix: string)
    requires Underway(a, b, oldPrefix, newPrefix) && Underway(b, c, oldPrefix, newPrefix)
    ensures Underway(a, c, oldPrefix, newPrefix)
  {
    forall s
      ensures SuffixOk(a, c, oldPrefix, newPrefix, s)
    {
      assert SuffixOk(a, b, oldPrefix, newPrefix, s) && SuffixOk(b, c, oldPrefix, newPrefix, s);
    }
    forall k
      ensures OutsideOk(a, c, oldPrefix, newPrefix, k)
    {
      assert OutsideOk(a, b, oldPrefix, newPrefix, k) && OutsideOk(b, c, oldPrefix, newPrefix, k);
    }
  }

  /** Completing an interrupted move gives exactly what the uninterrupted one would have. */
  lemma RetryCompletes(before: Objects, now: Objects, oldPrefix: string, newPrefix: string)
    requires Disjoint(oldPrefix, newPrefix) && Underway(before, now, oldPrefix, newPrefix)
    ensures Moved(now, oldPrefix, newPrefix) == Moved(before, oldPrefix, newPrefix)
  {
    var m := Moved(now, oldPrefix, newPrefix);
    MovedIsUnderway(now, oldPrefix, newPrefix);
    UnderwayTrans(before, now, m, oldPrefix, newPrefix);
    EmptiedIsMoved(before, m, oldPrefix, newPrefix);
  }

  lemma MovedIsUnderway(before: Objects, oldPrefix: string, newPrefix: string)
    requires Disjoint(oldPrefix, newPrefix)
    ensures var m := Moved(before, oldPrefix, newPrefix);
            Underway(before, m, oldPrefix, newPrefix) && Under(m, oldPrefix) == {}
  {
    hide Moved;
    var m := Moved(before, oldPrefix, newPrefix);
    forall s
      ensures SuffixOk(before, m, oldPrefix, newPrefix, s)
    {
      MovedSuffix(before, oldPrefix, newPrefix, s);
    }
    forall k
      ensures OutsideOk(before, m, oldPrefix, newPrefix, k)
    {
      if !(oldPrefix <= k) && !(newPrefix <= k) { MovedOutside(before, oldPrefix, newPrefix, k); }
    }
    forall k | k in Under(m, oldPrefix)
      ensures false
    {
      KeySplit(oldPrefix, k);
      MovedSuffix(before, oldPrefix, newPrefix, k[|oldPrefix|..]);
    }
  }

  lemma UnderwayRefl(objects: Objects, oldPrefix: string, newPrefix: string)
    ensures Underway(objects, objects, oldPrefix, newPrefix)
  {
  }

  // ---------------------------------------------------------------- the service

  lemma CopyStep(before: Objects, now: Objects, oldPrefix: string, newPrefix: string, key: string)
    requires Disjoint(oldPrefix, newPrefix) && Underway(before, now, oldPrefix, newPrefix) && key in now
             && oldPrefix <= key
    ensures var copied := now[NewKey(oldPrefix, newPrefix, key) := now[key]];
            && Underway(before, copied, oldPrefix, newPrefix) && Underway(before, copied - {key}, oldPrefix, newPrefix)
            && Under(copied, oldPrefix) == Under(now, oldPrefix)
            && Under(copied - {key}, oldPrefix) == Under(now, oldPrefix) - {key}
  {
    var suffix := key[|oldPrefix|..];
    KeySplit(oldPrefix, key);
    var copied := now[newPrefix + suffix := now[key]];
    DisjointKeys(newPrefix, oldPrefix, suffix);
    DisjointKeys(oldPrefix, newPrefix, suffix);
    forall s
      ensures SuffixOk(before, copied, oldPrefix, newPrefix, s)
              && SuffixOk(before, copied - {key}, oldPrefix, newPrefix, s)
    {
      assert SuffixOk(before, now, oldPrefix, newPrefix, s);
      SameSuffix(oldPrefix, s, suffix);
      SameSuffix(newPrefix, s, suffix);
      DisjointKeys(newPrefix, oldPrefix, s);
      DisjointKeys(oldPrefix, newPrefix, s);
      SuffixOf(oldPrefix, s);
    }
    forall k
      ensures OutsideOk(before, copied, oldPrefix, newPrefix, k)
              && OutsideOk(before, copied - {key}, oldPrefix, newPrefix, k)
    {
      assert OutsideOk(before, now, oldPrefix, newPrefix, k);
      SuffixOf(newPrefix, suffix);
    }
  }

  lemma SameSuffix(prefix: string, a: string, b: string)
    ensures prefix + a == prefix + b ==> a == b
  {
    SuffixOf(prefix, a);
    SuffixOf(prefix, b);
  }

  class ObjectStoreService {
    var objects: Objects

    constructor ()
      ensures objects == map[]
    {
      objects := map[];
    }

    /** One page of a listing: some of the keys after the token, at least one if there are any. */
    method ListPage(token: set<string>) returns (page: seq<string>, next: set<string>)
      requires token != {}
      ensures next == token - Elements(page) && Elements(page) <= token && page != [] && Distinct(page)
    {
      var key :| key in token;
      page, next := [key], token - {key};
      assert Elements([key]) == {key};
      var more: bool := *;
      while more && next != {}
        invariant next == token - Elements(page) && Elements(page) <= token && page != [] && Distinct(page)
        decreases |next|
      {
        key :| key in next;
        DistinctSnoc(page, key);
        page, next := page + [key], next - {key};
        more := *;
      }
    }

    /** `_listKeys`: pages until the continuation token runs out. */
    method ListKeys(prefix: string) returns (keys: seq<string>)
      ensures Elements(keys) == Under(objects, prefix) && Distinct(keys)
    {
      hide Under, Distinct;
      keys := [];
      NoKeys();
      var token := Under(objects, prefix);
      while token != {}
        invariant token == Under(objects, prefix) - Elements(keys) && Elements(keys) <= Under(objects, prefix)
                  && Distinct(keys)
        decreases |token|
      {
        var page, next := ListPage(token);
        FewerLeft(token, page);
        PageIsNew(Under(objects, prefix), keys, page);
        keys, token := keys + page, next;
      }
    }

    /**
     Copy then delete, key by key; the store answers `budget` requests before one fails. `done` is false when
     a request failed: then every object is still under its old or its new key. Otherwise the move is complete.
     */
    method RenamePrefix(oldPrefix: string, newPrefix: string, budget: nat) returns (done: bool, moved: nat)
      requires Disjoint(oldPrefix, newPrefix)
      modifies `objects
      ensures Underway(old(objects), objects, oldPrefix, newPrefix)
      ensures done <==> 2 * |Under(old(objects), oldPrefix)| <= budget
      ensures done ==> objects == Moved(old(objects), oldPrefix, newPrefix) && moved == |Under(old(objects), oldPrefix)|
    {
      hide Underway, Moved;
      var keys := ListKeys(oldPrefix);
      moved := 0;
      UnderwayRefl(objects, oldPrefix, newPrefix);
      DistinctCount(keys);
      for i := 0 to |keys|
        invariant moved == i && 2 * i <= budget && Underway(old(objects), objects, oldPrefix, newPrefix)
        invariant Under(objects, oldPrefix) == Elements(keys[i..])
      {
        var key := keys[i];
        assert keys[i..] == [key] + keys[i + 1..];
        assert key in Elements(keys[i..]) && key !in Elements(keys[i + 1..]);
        assert Elements(keys[i..]) - {key} == Elements(keys[i + 1..]);
        CopyStep(old(objects), objects, oldPrefix, newPrefix, key);
        if budget < 2 * i + 1 { return false, moved; }
        objects := objects[NewKey(oldPrefix, newPrefix, key) := objects[key]];
        if budget < 2 * i + 2 { return false, moved; }
        objects := objects - {key};
        moved := moved + 1;
      }
      assert Elements(keys[|keys|..]) == {};
      EmptiedIsMoved(old(objects), objects, oldPrefix, newPrefix);
      done := true;
    }

    /** Any number of interrupted attempts: a completed one leaves what one uninterrupted move would. */
    method RenameWithRetries(oldPrefix: string, newPrefix: string, budgets: seq<nat>) returns (done: bool)
      requires Disjoint(oldPrefix, newPrefix)
      modifies `objects
      ensures Underway(old(objects), objects, oldPrefix, newPrefix)
      ensures done ==> objects == Moved(old(objects), oldPrefix, newPrefix)
      ensures (exists i :: 0 <= i < |budgets| && 2 * |Under(old(objects), oldPrefix)| <= budgets[i]) ==> done
    {
      hide Underway, Moved, Under;
      done := false;
      UnderwayRefl(objects, oldPrefix, newPrefix);
      for i := 0 to |budgets|
        invariant Underway(old(objects), objects, oldPrefix, newPrefix) && !done
        invariant forall k :: 0 <= k < i ==> budgets[k] < 2 * |Under(old(objects), oldPrefix)|
      {
        ghost var before := objects;
        FewerToMove(old(objects), before, oldPrefix, newPrefix);
        var moved;
        done, moved := RenamePrefix(oldPrefix, newPrefix, budgets[i]);
        UnderwayTrans(old(objects), before, objects, oldPrefix, newPrefix);
        if done {
          RetryCompletes(old(objects), before, oldPrefix, newPrefix);
          return;
        }
      }
    }

    /**
     Deletes in batches; the store answers `budget` requests before one fails, and then the later batches are
     left in place. An answered request may still keep the keys in `refused`: its list of errors is not read,
     and the count takes the whole batch.
     */
    method DeletePrefix(prefix: string, refused: set<string>, budget: nat) returns (done: bool, deleted: nat)
      modifies `objects
      ensures old(objects) - Under(old(objects), prefix) == objects - Under(objects, prefix)
      ensures objects.Keys <= old(objects).Keys && Under(old(objects), prefix) * refused <= objects.Keys
      ensures done <==> |Under(old(objects), prefix)| <= 1000 * budget
      ensures done ==> objects == old(objects) - (Under(old(objects), prefix) - refused)
                       && deleted == |Under(old(objects), prefix)|
      ensures !done ==> deleted == 1000 * budget
    {
      hide Under, Distinct;
      var keys := ListKeys(prefix);
      deleted := 0;
      DistinctCount(keys);
      var i, left := 0, budget;
      while i < |keys|
        invariant i + 1000 * left == 1000 * budget && deleted == (if i <= |keys| then i else |keys|)
        invariant i < |keys| + 1000
        invariant objects == old(objects) - (Elements(keys[..deleted]) - refused)
      {
        var end := if i + DELETE_BATCH <= |keys| then i + DELETE_BATCH else |keys|;
        var batch := keys[i..end];
        if left == 0 {
          DeletedSome(old(objects), prefix, refused, keys, deleted);
          return false, deleted;
        }
        BatchJoins(keys, i, end);
        objects := objects - (Elements(batch) - refused);
        deleted := deleted + |batch|;
        i, left := i + DELETE_BATCH, left - 1;
      }
      DeletedSome(old(objects), prefix, refused, keys, |keys|);
      assert keys[..|keys|] == keys;
      done := true;
    }
  }

  lemma BatchJoins(keys: seq<string>, lo: nat, hi: nat)
    requires lo <= hi <= |keys|
    ensures Elements(keys[..hi]) == Elements(keys[..lo]) + Elements(keys[lo..hi])
  {
    assert keys[..hi] == keys[..lo] + keys[lo..hi];
  }

  /** Deleting some of the keys under a prefix, but for those refused. */
  lemma DeletedSome(before: Objects, prefix: string, refused: set<string>, keys: seq<string>, n: nat)
    requires Elements(keys) == Under(before, prefix) && n <= |keys|
    ensures var now := before - (Elements(keys[..n]) - refused);
            && before - Under(before, prefix) == now - Under(now, prefix)
            && now.Keys <= before.Keys && Under(before, prefix) * refused <= now.Keys
  {
    assert Elements(keys[..n]) <= Elements(keys);
  }

  /** On the way of a move there is never more left to move. */
  lemma FewerToMove(before: Objects, now: Objects, oldPrefix: string, newPrefix: string)
    requires Underway(before, now, oldPrefix, newPrefix)
    ensures |Under(now, oldPrefix)| <= |Under(before, oldPrefix)|
  {
    forall k | k in Under(now, oldPrefix)
      ensures k in Under(before, oldPrefix)
    {
      KeySplit(oldPrefix, k);
      assert SuffixOk(before, now, oldPrefix, newPrefix, k[|oldPrefix|..]);
    }
    SmallerSet(Under(now, oldPrefix), Under(before, oldPrefix));
  }

  lemma SmallerSet(a: set<string>, b: set<string>)
    requires a <= b
    ensures |a| <= |b|
  {
    assert |b| == |a| + |b - a|;
  }

  ghost predicate Distinct(keys: seq<string>) {
    forall i, j :: 0 <= i < j < |keys| ==> keys[i] != keys[j]
  }

  lemma DistinctAppend(a: seq<string>, b: seq<string>)
    requires Distinct(a) && Distinct(b) && forall k :: k in a ==> k !in b
    ensures Distinct(a + b) && Elements(a + b) == Elements(a) + Elements(b)
  {
    forall i, j | 0 <= i < |a| && 0 <= j < |b|
      ensures a[i] != b[j]
    {
      assert a[i] in a && b[j] in b;
    }
    assert forall k :: k in a + b <==> k in a || k in b;
  }

  lemma DistinctSnoc(a: seq<string>, key: string)
    requires Distinct(a) && key !in Elements(a)
    ensures Distinct(a + [key]) && Elements(a + [key]) == Elements(a) + {key}
  {
    assert Elements([key]) == {key};
    DistinctAppend(a, [key]);
  }

  lemma NoKeys()
    ensures Distinct([]) && Elements<string>([]) == {}
  {
  }

  /** A page of the keys not listed yet extends the list. */
  lemma PageIsNew(all: set<string>, keys: seq<string>, page: seq<string>)
    requires Distinct(keys) && Distinct(page) && Elements(keys) <= all && Elements(page) <= all - Elements(keys)
    ensures Distinct(keys + page) && Elements(keys + page) <= all
    ensures all - Elements(keys + page) == all - Elements(keys) - Elements(page)
  {
    forall k | k in page
      ensures k !in keys
    {
      assert k in Elements(page);
    }
    DistinctAppend(keys, page);
  }

  lemma FewerLeft(token: set<string>, page: seq<string>)
    requires page != [] && Elements(page) <= token
    ensures |token - Elements(page)| < |token|
  {
    assert page[0] in Elements(page);
    assert |token| == |token - Elements(page)| + |Elements(page)|;
  }

  lemma {:induction false} DistinctCount(keys: seq<string>)
    requires Distinct(keys)
    ensures |Elements(keys)| == |keys|
  {
    if keys != [] {
      var n := |keys| - 1;
      DistinctCount(keys[..n]);
      assert keys == keys[..n] + [keys[n]];
      assert Elements(keys) == Elements(keys[..n]) + {keys[n]};
      assert keys[n] !in Elements(keys[..n]);
    }
  }
}
