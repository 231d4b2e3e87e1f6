/** What eviction keeps, over one call and over repeated ones. */
module HistoryEviction {
  import opened Wrappers
  import opened Sorting
  import opened HistoryStore

  function Elements(records: seq<Record>): set<Record> {
    set r | r in records
  }

  function NewerThan(all: set<Record>, r: Record): set<Record> {
    set q | q in all && Older(r, q)
  }

  /** The unexpired records that fewer than `limit` others are newer than. */
  function Newest(all: set<Record>, limit: nat, cutoff: nat): set<Record> {
    set r | r in all && r.createdAt >= cutoff && |NewerThan(all, r)| < limit
  }

  // ---------------------------------------------------------------- one call

  lemma {:induction false} RetainElements(records: seq<Record>, cutoff: nat)
    requires UniqueIds(records)
    ensures UniqueIds(Retain(records, cutoff))
    ensures forall r :: r in Retain(records, cutoff) <==> r in records && r.createdAt >= cutoff
  {
    if records != [] {
      var tail := Retain(records[1..], cutoff);
      RetainElements(records[1..], cutoff);
      assert records == [records[0]] + records[1..];
      forall r | r in tail ensures r.id != records[0].id {
        var i :| 0 <= i < |records[1..]| && records[1..][i] == r;
        assert records[i + 1] == r;
      }
    }
  }

  lemma OlderIsStrictOrder()
    ensures forall x: Record :: !Older(x, x)
    ensures forall x, y, z :: Older(x, y) && Older(y, z) ==> Older(x, z)
  {
    RecordsOrdered([]);
  }

  lemma {:induction false} ElementCount(t: seq<Record>)
    requires StrictlySorted(Older, t)
    ensures |Elements(t)| == |t|
  {
    if t != [] {
      OlderIsStrictOrder();
      ElementCount(t[1..]);
      assert Elements(t) == {t[0]} + Elements(t[1..]);
      forall j | 0 <= j < |t[1..]| ensures t[1..][j] != t[0] {
        assert Older(t[0], t[j + 1]);
      }
    }
  }

  /** In a sorted file the records newer than the one at `i` are those behind it. */
  lemma RankInSorted(t: seq<Record>, i: nat)
    requires StrictlySorted(Older, t) && i < |t|
    ensures |NewerThan(Elements(t), t[i])| == |t| - 1 - i
  {
    OlderIsStrictOrder();
    var behind := t[i + 1..];
    assert forall j :: 0 <= j < |behind| ==> behind[j] == t[i + 1 + j];
    assert forall j :: 0 <= j < i ==> Older(t[j], t[i]);
    forall q ensures q in NewerThan(Elements(t), t[i]) <==> q in behind {
      if q in NewerThan(Elements(t), t[i]) {
        var j :| 0 <= j < |t| && t[j] == q;
        assert j > i;
        assert behind[j - i - 1] == q;
      }
    }
    assert NewerThan(Elements(t), t[i]) == Elements(behind);
    ElementCount(behind);
  }

  lemma SortedLimit(records: seq<Record>, limit: nat)
    requires UniqueIds(records)
    ensures var kept := ApplyLimit(records, limit);
            && StrictlySorted(Older, kept)
            && forall r :: r in kept <==> r in records && |NewerThan(Elements(records), r)| < limit
  {
    var t := SortBy(Older, records);
    RecordsOrdered(records);
    SortSorted(Older, records);
    SortElements(Older, records);
    SameElements(t, records);
    assert Elements(t) == Elements(records);
    SuffixByRank(t, if |t| > limit then |t| - limit else 0, limit);
  }

  lemma SuffixByRank(t: seq<Record>, first: nat, limit: nat)
    requires StrictlySorted(Older, t)
    requires first == if |t| > limit then |t| - limit else 0
    ensures forall r :: r in t[first..] <==> r in t && |NewerThan(Elements(t), r)| < limit
  {
    var kept := t[first..];
    assert forall k :: first <= k < |t| ==> t[k] in kept;
    forall r ensures r in kept <==> r in t && |NewerThan(Elements(t), r)| < limit {
      if r in kept {
        var j :| 0 <= j < |kept| && kept[j] == r;
        RankInSorted(t, first + j);
      } else if r in t {
        var j :| 0 <= j < |t| && t[j] == r;
        assert j < first;
        RankInSorted(t, j);
      }
    }
  }

  lemma SameElements(s: seq<Record>, t: seq<Record>)
    requires multiset(s) == multiset(t)
    ensures forall r :: r in s <==> r in t
  {
    forall r ensures r in s <==> r in t {
      assert r in s <==> r in multiset(s);
      assert r in t <==> r in multiset(t);
    }
  }

  /** One application keeps exactly the newest unexpired records, oldest first. */
  lemma PolicyKeepsNewest(records: seq<Record>, policy: Policy, now: nat)
    requires UniqueIds(records)
    ensures var kept := ApplyPolicy(records, policy, now);
            && StrictlySorted(Older, kept)
            && Elements(kept) == Newest(Elements(records), policy.limit, Cutoff(policy.retentionDays, now))
  {
    var cutoff := Cutoff(policy.retentionDays, now);
    var unexpired := Retain(records, cutoff);
    RetainElements(records, cutoff);
    SortedLimit(unexpired, policy.limit);
    forall r | r in unexpired
      ensures NewerThan(Elements(unexpired), r) == NewerThan(Elements(records), r)
    {
    }
  }

  lemma KeptIdsUnique(records: seq<Record>, policy: Policy, now: nat)
    requires UniqueIds(records)
    ensures UniqueIds(ApplyPolicy(records, policy, now))
  {
    var kept := ApplyPolicy(records, policy, now);
    PolicyKeepsNewest(records, policy, now);
    OlderIsStrictOrder();
    forall i, j | 0 <= i < j < |kept| ensures kept[i].id != kept[j].id {
      assert kept[i] in Elements(kept) && kept[j] in Elements(kept);
      assert Older(kept[i], kept[j]);
      assert kept[i] in records && kept[j] in records;
    }
  }

  // ---------------------------------------------------------------- repeated eviction

  /** If `q` was dropped for lack of room, `limit` records newer than it were kept. */
  lemma {:induction false} DroppedForNewer(all: set<Record>, limit: nat, cutoff: nat, q: Record)
    requires q.createdAt >= cutoff && |NewerThan(all, q)| >= limit
    ensures |NewerThan(Newest(all, limit, cutoff), q)| >= limit
    decreases |NewerThan(all, q)|
  {
    OlderIsStrictOrder();
    var kept := Newest(all, limit, cutoff);
    if p :| p in NewerThan(all, q) && p !in kept {
      assert NewerThan(all, p) < NewerThan(all, q) by {
        assert p in NewerThan(all, q) && p !in NewerThan(all, p);
      }
      ProperSubsetSmaller(NewerThan(all, p), NewerThan(all, q));
      DroppedForNewer(all, limit, cutoff, p);
      assert NewerThan(kept, p) <= NewerThan(kept, q);
      SubsetSmaller(NewerThan(kept, p), NewerThan(kept, q));
    } else {
      assert NewerThan(all, q) == NewerThan(kept, q);
    }
  }

  lemma {:induction false} SubsetSmaller<T>(a: set<T>, b: set<T>)
    requires a <= b
    ensures |a| <= |b|
  {
    assert b == a + (b - a);
  }

  lemma ProperSubsetSmaller<T>(a: set<T>, b: set<T>)
    requires a < b
    ensures |a| < |b|
  {
    var x :| x in b && x !in a;
    SubsetSmaller(a, b - {x});
  }

  /** Choosing the newest from a part gives the newest of all exactly if they are in the part. */
  lemma NewestOfPartIff(all: set<Record>, part: set<Record>, limit: nat, cutoff: nat)
    requires part <= all
    ensures Newest(part, limit, cutoff) == Newest(all, limit, cutoff) <==> Newest(all, limit, cutoff) <= part
  {
    var wanted := Newest(all, limit, cutoff);
    if wanted <= part {
      forall r ensures r in Newest(part, limit, cutoff) <==> r in wanted {
        SubsetSmaller(NewerThan(part, r), NewerThan(all, r));
        if r in part && r.createdAt >= cutoff && r !in wanted {
          DroppedForNewer(all, limit, cutoff, r);
          assert NewerThan(wanted, r) <= NewerThan(part, r);
          SubsetSmaller(NewerThan(wanted, r), NewerThan(part, r));
        }
      }
    }
  }

  /** Evicting early under a rule that is no stricter loses nothing that a later
      eviction would have kept. */
  lemma EvictionComposes(all: set<Record>, added: set<Record>, limit: nat, limit': nat, cutoff: nat, cutoff': nat)
    requires limit' <= limit && cutoff <= cutoff'
    ensures Newest(Newest(all, limit, cutoff) + added, limit', cutoff') == Newest(all + added, limit', cutoff')
  {
    var kept := Newest(all, limit, cutoff);
    forall r | r in Newest(all + added, limit', cutoff') ensures r in kept + added {
      SubsetSmaller(NewerThan(all, r), NewerThan(all + added, r));
    }
    NewestOfPartIff(all + added, kept + added, limit', cutoff');
  }

  lemma CutoffMonotone(retentionDays: Option<nat>, now: nat, later: nat)
    requires now <= later
    ensures Cutoff(retentionDays, now) <= Cutoff(retentionDays, later)
  {
  }

  /** Enforcing a policy and later one that is at least as strict leaves the file that
      enforcing only the later one would have left; with one policy and one clock
      reading enforcement is idempotent. */
  lemma EnforceComposes(records: seq<Record>, policy: Policy, now: nat, policy': Policy, later: nat)
    requires UniqueIds(records) && policy'.limit <= policy.limit
    requires Cutoff(policy.retentionDays, now) <= Cutoff(policy'.retentionDays, later)
    ensures ApplyPolicy(ApplyPolicy(records, policy, now), policy', later) == ApplyPolicy(records, policy', later)
  {
    var once := ApplyPolicy(records, policy, now);
    KeptIdsUnique(records, policy, now);
    PolicyKeepsNewest(records, policy, now);
    PolicyKeepsNewest(once, policy', later);
    PolicyKeepsNewest(records, policy', later);
    var early, late := Cutoff(policy.retentionDays, now), Cutoff(policy'.retentionDays, later);
    EvictionComposes(Elements(records), {}, policy.limit, policy'.limit, early, late);
    assert Newest(Elements(records), policy.limit, early) + {} == Elements(once);
    assert Elements(records) + {} == Elements(records);
    SameFile(ApplyPolicy(once, policy', later), ApplyPolicy(records, policy', later));
  }

  lemma SameFile(s: seq<Record>, t: seq<Record>)
    requires StrictlySorted(Older, s) && StrictlySorted(Older, t) && Elements(s) == Elements(t)
    ensures s == t
  {
    OlderIsStrictOrder();
    StrictlySortedOrders(Older, s);
    forall x ensures x in s <==> x in t {
      assert x in s <==> x in Elements(s);
      assert x in t <==> x in Elements(t);
    }
    SortedUnique(Older, s, t);
  }
}
