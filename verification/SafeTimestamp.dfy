/** The lazily refreshed minimum of the times last read from each active thread. */
module SafeTimestamps {

  ghost predicate IsMinimum(m: int, times: map<int, int>) {
    && (exists t :: t in times && times[t] == m)
    && (forall t :: t in times ==> m <= times[t])
  }

  ghost predicate InList(list: seq<(int, int)>, t: int) {
    exists i :: 0 <= i < |list| && list[i].0 == t
  }

  /** The list holds each thread of the map once, with its time. */
  ghost predicate Lists(list: seq<(int, int)>, times: map<int, int>) {
    && (forall i :: 0 <= i < |list| ==> list[i].0 in times && times[list[i].0] == list[i].1)
    && (forall i, j :: 0 <= i < j < |list| ==> list[i].0 != list[j].0)
    && (forall t :: t in times ==> InList(list, t))
  }

  lemma NobodyListed(list: seq<(int, int)>, times: map<int, int>)
    requires Lists(list, times) && list == []
    ensures times == map[]
  {
    forall t ensures t !in times {
      assert !InList(list, t);
    }
  }

  /** As many entries as threads. */
  lemma {:induction false} ListLength(list: seq<(int, int)>, times: map<int, int>)
    requires Lists(list, times)
    ensures |list| == |times|
    decreases |list|
  {
    if list == [] {
      NobodyListed(list, times);
    } else {
      var n, t := |list| - 1, list[|list| - 1].0;
      var shorter := times - {t};
      forall u | u in shorter ensures InList(list[..n], u) {
        assert InList(list, u);
        var i :| 0 <= i < |list| && list[i].0 == u;
        assert list[..n][i].0 == u;
      }
      ListLength(list[..n], shorter);
      assert times.Keys == shorter.Keys + {t};
    }
  }

  class SafeTimestamp {
    var cache: int
    var list: seq<(int, int)>
    ghost var times: map<int, int>

    ghost predicate Valid()
      reads this
    {
      Lists(list, times)
    }

    /** The cache is the minimum whenever there is one. */
    ghost predicate Exact()
      reads this
    {
      times == map[] || IsMinimum(cache, times)
    }

    constructor ()
      ensures Valid() && Exact() && times == map[] && cache == 0
    {
      cache := 0;
      list := [];
      times := map[];
    }

    method Find(threadId: int) returns (i: nat)
      requires Valid()
      ensures i <= |list|
      ensures i < |list| ==> list[i].0 == threadId
      ensures i == |list| <==> threadId !in times
    {
      i := 0;
      while i < |list| && list[i].0 != threadId
        invariant i <= |list|
        invariant forall j :: 0 <= j < i ==> list[j].0 != threadId
      {
        i := i + 1;
      }
    }

    /**
      Records the last time read from a thread. The minimum is recomputed only if the thread is new or
      its old time was not above the cache; when it is not recomputed, an exact cache stays exact if
      and only if the new time is not below it.
    */
    method SetTime(threadId: int, time: int)
      requires Valid()
      modifies this
      ensures Valid() && times == old(times)[threadId := time]
      ensures threadId !in old(times) || old(times)[threadId] <= old(cache) ==> Exact()
      ensures threadId in old(times) && old(times)[threadId] > old(cache) ==>
                cache == old(cache) && (old(Exact()) ==> (Exact() <==> time >= cache))
    {
      var i := Find(threadId);
      var needUpdate := false;
      if i == |list| {
        list := list + [(threadId, time)];
        needUpdate := true;
      } else {
        needUpdate := list[i].1 <= cache;
        list := list[i := (threadId, time)];
      }
      times := times[threadId := time];
      assert Lists(list, times) by {
        ListsUpdated(old(list), old(times), list, threadId, time, i);
      }
      if needUpdate {
        UpdateCache();
      } else {
        SkipIsSafe(old(cache), old(times), threadId, time);
      }
    }

    lemma SkipIsSafe(cache: int, times: map<int, int>, threadId: int, time: int)
      requires threadId in times && times[threadId] > cache
      ensures IsMinimum(cache, times) ==> (IsMinimum(cache, times[threadId := time]) <==> time >= cache)
    {
      if IsMinimum(cache, times) {
        var t := Attains(cache, times);
        var changed := times[threadId := time];
        assert changed[threadId] == time && changed[t] == cache;
      }
    }

    lemma Attains(m: int, times: map<int, int>) returns (t: int)
      requires IsMinimum(m, times)
      ensures t in times && times[t] == m
    {
      t :| t in times && times[t] == m;
    }

    lemma ListsUpdated(list: seq<(int, int)>, times: map<int, int>, list': seq<(int, int)>,
                       threadId: int, time: int, i: nat)
      requires Lists(list, times) && i <= |list| && (i == |list| <==> threadId !in times)
      requires i < |list| ==> list[i].0 == threadId && list' == list[i := (threadId, time)]
      requires i == |list| ==> list' == list + [(threadId, time)]
      ensures Lists(list', times[threadId := time])
    {
      assert list'[i].0 == threadId;
      forall t | t in times[threadId := time] ensures InList(list', t) {
        if t != threadId {
          assert InList(list, t);
          var k :| 0 <= k < |list| && list[k].0 == t;
          assert list'[k].0 == t;
        }
      }
    }

    /** Forgets a thread that has finished. */
    method FinishThread(threadId: int)
      requires Valid() && threadId in times
      modifies this
      ensures Valid() && times == old(times) - {threadId} && Exact()
      ensures times == map[] ==> cache == old(cache)
    {
      var i := Find(threadId);
      list := list[..i] + list[i + 1..];
      times := times - {threadId};
      assert Lists(list, times) by {
        ListsErased(old(list), old(times), threadId, i);
      }
      UpdateCache();
    }

    lemma ListsErased(list: seq<(int, int)>, times: map<int, int>, threadId: int, i: nat)
      requires Lists(list, times) && i < |list| && list[i].0 == threadId
      ensures Lists(list[..i] + list[i + 1..], times - {threadId})
    {
      var list' := list[..i] + list[i + 1..];
      assert forall k :: 0 <= k < |list'| ==> list'[k] == list[if k < i then k else k + 1];
      forall t | t in times - {threadId} ensures InList(list', t) {
        assert InList(list, t);
        var k :| 0 <= k < |list| && list[k].0 == t;
        assert list'[if k < i then k else k - 1].0 == t;
      }
    }

    /** The minimum of the list; an empty list leaves the cache alone. */
    method UpdateCache()
      requires Valid()
      modifies this`cache
      ensures Exact()
      ensures times == map[] ==> cache == old(cache)
    {
      if list == [] {
        NobodyListed(list, times);
        return;
      }
      var m := list[0].1;
      var i := 0;
      while i < |list|
        invariant i <= |list|
        invariant forall j :: 0 <= j < i ==> m <= list[j].1
        invariant exists j :: 0 <= j < |list| && list[j].1 == m
      {
        if list[i].1 < m {
          m := list[i].1;
        }
        i := i + 1;
      }
      cache := m;
    }
  }
}
