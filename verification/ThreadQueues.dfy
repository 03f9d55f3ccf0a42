/** The ready list and the wait queues of the kernel (thread/thread.c, thread/sync.c): linked
lists that all run through the one general_tag of each thread. */
module ThreadQueues {
  import opened Basics
  import opened IntrusiveLists
  import opened Threads

  datatype QueueId = Ready | Wait(s: SemaId)

  ghost predicate Known(tag: map<Tid, Elem>, ids: seq<Tid>) {
    forall t :: t in ids ==> t in tag
  }

  /** The links of the threads `ids`, in order. */
  ghost function Tags(tag: map<Tid, Elem>, ids: seq<Tid>): seq<Elem>
    requires Known(tag, ids)
  {
    seq(|ids|, i requires 0 <= i < |ids| => tag[ids[i]])
  }

  /** A thread is on one queue. */
  ghost predicate Disjoint(ids: map<QueueId, seq<Tid>>) {
    forall q, r, t :: q in ids && r in ids && t in ids[q] && t in ids[r] ==> q == r
  }

  class Queues {
    const lists: map<QueueId, List>
    const tag: map<Tid, Elem>               // general_tag of each thread
    ghost var ids: map<QueueId, seq<Tid>>   // the threads on each list
    ghost const repr: set<object>

    /** A link for each thread, and empty lists. */
    constructor (threads: seq<Tid>, semas: seq<SemaId>)
      ensures Valid() && fresh(repr)
      ensures (forall t :: t in tag <==> t in threads) && (forall q :: q in ids <==> q == Ready || (q.Wait? && q.s in semas))
      ensures forall q :: q in ids ==> ids[q] == []
    {
      hide Valid, Objects, Disjoint, Links, Chained, NoDup, Separate, ObjectsOf;
      var tags, queues := NewObjects(threads, semas);
      tag, lists, repr := tags, queues, ObjectsOf(tags, queues);
      ids := map q | q in queues :: [];
      new;
      AllDifferent();
      NoneQueued(ids);
      forall q | q in lists ensures Links(q, ids[q]) {
        Relinked(q, []);
      }
      Whole();
    }

    lemma AllDifferent()
      requires repr == ObjectsOf(tag, lists) && this !in repr && Separate(lists) && (forall t :: t in tag ==> tag[t].id == t)
      requires forall q, t :: q in lists && t in tag ==> tag[t] != lists[q].head && tag[t] != lists[q].tail
      ensures Objects()
    {
    }

    /** The lists and the links of the threads are different objects. */
    ghost predicate Objects() {
      && this !in repr
      && (forall q :: q in lists ==> lists[q] in repr && lists[q].head in repr && lists[q].tail in repr)
      && (forall t :: t in tag ==> tag[t] in repr && tag[t].id == t)
      && (forall q, t :: q in lists && t in tag ==> tag[t] != lists[q].head && tag[t] != lists[q].tail)
      && (forall q, r :: q in lists && r in lists && q != r ==>
            lists[q] != lists[r] && lists[q].head != lists[r].head && lists[q].head != lists[r].tail && lists[q].tail != lists[r].tail)
    }

    /** List `q` links exactly the threads `list`. */
    ghost predicate Links(q: QueueId, list: seq<Tid>)
      requires q in lists
      reads lists[q], lists[q].Nodes()
    {
      Known(tag, list) && lists[q].Valid() && lists[q].elems == Tags(tag, list)
    }

    ghost predicate InRepr(q: QueueId)
      requires q in lists
      reads lists[q]
    {
      lists[q] in repr && forall e :: e in lists[q].Nodes() ==> e in repr
    }

    /** All lists are well formed, and no thread's link is on two of them. */
    ghost predicate Valid()
      reads this, repr
    {
      && Objects() && ids.Keys == lists.Keys && Disjoint(ids)
      && forall q :: q in lists ==> lists[q] in repr && InRepr(q) && Links(q, ids[q])
    }

    lemma Parts()
      requires Valid()
      ensures Objects() && this !in repr && ids.Keys == lists.Keys && Disjoint(ids)
      ensures forall q :: q in lists ==> lists[q] in repr && Links(q, ids[q])
      ensures forall q, e :: q in lists && e in lists[q].Nodes() ==> e in repr
    {
      hide Links, Disjoint;
    }

    lemma Whole()
      requires Objects() && ids.Keys == lists.Keys && Disjoint(ids) && forall q :: q in lists ==> Links(q, ids[q])
      ensures Valid()
    {
      hide Links, Disjoint;
      forall q | q in lists ensures lists[q] in repr && InRepr(q) {
        forall e | e in lists[q].Nodes() ensures e in repr {
          NodeIs(q, ids[q], e);
        }
      }
    }

    /** A thread's link is on a list exactly if the thread is on its queue. */
    lemma OnList(q: QueueId, list: seq<Tid>, t: Tid)
      requires Objects() && q in lists && t in tag && Links(q, list)
      ensures tag[t] in lists[q].Nodes() <==> t in list
      ensures tag[t] in lists[q].elems <==> t in list
    {
      hide NoDup, Chained;
      forall i | 0 <= i < |list| ensures list[i] in tag && (tag[list[i]] == tag[t] <==> list[i] == t) {
        assert list[i] in list;
      }
      if t in list {
        var i :| 0 <= i < |list| && list[i] == t;
        assert lists[q].elems[i] == tag[t];
      }
    }

    /** Every node of a list is a sentinel of it or the link of a queued thread. */
    lemma NodeIs(q: QueueId, list: seq<Tid>, e: Elem)
      requires Objects() && q in lists && Links(q, list) && e in lists[q].Nodes()
      ensures e in repr && (e == lists[q].head || e == lists[q].tail || (e.id in tag && e == tag[e.id] && e.id in list))
    {
      hide NoDup, Chained;
      if e in lists[q].elems {
        var i :| 0 <= i < |list| && lists[q].elems[i] == e;
        assert list[i] in list;
      }
    }

    /** What a change of list `q` and of the link of `t` may touch is on no other list. */
    lemma OthersApart(q: QueueId, t: Tid)
      requires Valid() && q in lists && t in tag && forall r :: r in ids && r != q ==> t !in ids[r]
      ensures forall r, e :: r in lists && r != q && e in lists[r].Nodes() ==> e !in lists[q].Nodes() && e != tag[t]
      ensures forall r :: r in lists && r != q ==> lists[r] != lists[q]
    {
      hide Links, Disjoint, Valid;
      Parts();
      forall r, e | r in lists && r != q && e in lists[r].Nodes() ensures e !in lists[q].Nodes() && e != tag[t] {
        NodeIs(r, ids[r], e);
        if e in lists[q].Nodes() {
          NodeIs(q, ids[q], e);
          OneQueue(ids, q, r, e.id);
        }
      }
    }

    lemma Relinked(q: QueueId, list: seq<Tid>)
      requires q in lists && lists[q].Valid() && Known(tag, list) && lists[q].elems == Tags(tag, list)
      ensures Links(q, list)
    {
    }

    lemma TagPlace(t: Tid)
      requires Objects() && t in tag
      ensures tag[t] in repr
    {
    }

    lemma Linked(q: QueueId)
      requires Valid() && q in lists
      ensures q in ids && Known(tag, ids[q]) && lists[q].Valid() && lists[q].elems == Tags(tag, ids[q])
    {
    }

    /** list_push */
    method Push(q: QueueId, t: Tid)
      requires Valid() && q in lists && t in tag && forall r :: r in ids ==> t !in ids[r]
      modifies this`ids, repr
      ensures Valid() && ids == old(ids)[q := [t] + old(ids)[q]]
    {
      hide Valid, Objects, Disjoint, Links, Tags, NoDup, Chained;
      Parts();
      Linked(q);
      PushOnly(q, t);
      TagsMore(tag, ids[q], t);
      Relinked(q, [t] + ids[q]);
      MoreDisjoint(ids, q, t, [t] + ids[q]);
      label L:
      ids := ids[q := [t] + ids[q]];
      forall r | r in lists ensures Links(r, ids[r]) {
        assert old@L(Links(r, if r == q then [t] + ids[q] else ids[r]));
      }
      Whole();
    }

    /** The list operation, which touches no other list. */
    method PushOnly(q: QueueId, t: Tid)
      requires Valid() && q in lists && t in tag && forall r :: r in ids ==> t !in ids[r]
      modifies repr
      ensures lists[q].Valid() && lists[q].elems == [tag[t]] + old(lists[q].elems)
      ensures forall r :: r in lists && r != q ==> r in ids && Links(r, ids[r])
      ensures forall r :: r in lists ==> InRepr(r)
    {
      hide Valid, Objects, Disjoint, Links, Tags, NoDup, Chained;
      Parts();
      Linked(q);
      OnList(q, ids[q], t);
      OthersApart(q, t);
      TagPlace(t);
      ghost var nodes := lists[q].Nodes();
      assert nodes[0] in nodes && nodes[1] in nodes;
      lists[q].Push(tag[t]);
      assert lists[q].Nodes() == Inserted(nodes, 1, tag[t]);
    }

    /** list_append */
    method Append(q: QueueId, t: Tid)
      requires Valid() && q in lists && t in tag && forall r :: r in ids ==> t !in ids[r]
      modifies this`ids, repr
      ensures Valid() && ids == old(ids)[q := old(ids)[q] + [t]]
    {
      hide Valid, Objects, Disjoint, Links, Tags, NoDup, Chained;
      Parts();
      Linked(q);
      AppendOnly(q, t);
      TagsMore(tag, ids[q], t);
      Relinked(q, ids[q] + [t]);
      MoreDisjoint(ids, q, t, ids[q] + [t]);
      label L:
      ids := ids[q := ids[q] + [t]];
      forall r | r in lists ensures Links(r, ids[r]) {
        assert old@L(Links(r, if r == q then ids[q] + [t] else ids[r]));
      }
      Whole();
    }

    method AppendOnly(q: QueueId, t: Tid)
      requires Valid() && q in lists && t in tag && forall r :: r in ids ==> t !in ids[r]
      modifies repr
      ensures lists[q].Valid() && lists[q].elems == old(lists[q].elems) + [tag[t]]
      ensures forall r :: r in lists && r != q ==> r in ids && Links(r, ids[r])
      ensures forall r :: r in lists ==> InRepr(r)
    {
      hide Valid, Objects, Disjoint, Links, Tags, NoDup, Chained;
      Parts();
      Linked(q);
      OnList(q, ids[q], t);
      OthersApart(q, t);
      TagPlace(t);
      ghost var nodes := lists[q].Nodes();
      assert nodes[|nodes| - 1] in nodes && nodes[|nodes| - 2] in nodes;
      lists[q].Append(tag[t]);
      assert lists[q].Nodes() == Inserted(nodes, |nodes| - 1, tag[t]);
    }

    /** list_pop, and elem2entry of what it returns */
    method Pop(q: QueueId) returns (t: Tid)
      requires Valid() && q in lists && q in ids && ids[q] != []
      modifies this`ids, repr
      ensures Valid() && t == old(ids)[q][0] && ids == old(ids)[q := old(ids)[q][1..]]
    {
      hide Valid, Objects, Disjoint, Links, Tags, NoDup, Chained;
      Parts();
      Linked(q);
      TagsFirst(tag, ids[q]);
      FirstTag(q);
      var e := PopOnly(q);
      t := e.id;
      Relinked(q, ids[q][1..]);
      LessDisjoint(ids, q, ids[q][1..]);
      label L:
      ids := ids[q := ids[q][1..]];
      forall r | r in lists ensures Links(r, ids[r]) {
        assert old@L(Links(r, if r == q then ids[q][1..] else ids[r]));
      }
      Whole();
    }

    method PopOnly(q: QueueId) returns (e: Elem)
      requires Valid() && q in lists && lists[q].elems != []
      modifies repr
      ensures lists[q].Valid() && e == old(lists[q].elems)[0] && lists[q].elems == old(lists[q].elems)[1..]
      ensures forall r :: r in lists && r != q ==> r in ids && Links(r, ids[r])
      ensures forall r :: r in lists ==> InRepr(r)
    {
      hide Valid, Objects, Disjoint, Links, Tags, NoDup, Chained;
      Parts();
      Linked(q);
      ListApart(q);
      ghost var nodes := lists[q].Nodes();
      assert nodes[0] in nodes && nodes[2] in nodes;
      e := lists[q].Pop();
      assert lists[q].Nodes() == Removed(nodes, 1);
    }

    /** elem_find */
    method Find(q: QueueId, t: Tid) returns (found: bool)
      requires Valid() && q in lists && q in ids && t in tag
      ensures found == (t in ids[q])
    {
      hide Valid, Objects, Disjoint, Links, Tags, NoDup, Chained;
      Parts();
      Linked(q);
      OnList(q, ids[q], t);
      found := lists[q].Find(tag[t]);
    }

    /** list_empty */
    method Empty(q: QueueId) returns (empty: bool)
      requires Valid() && q in lists && q in ids
      ensures empty == (ids[q] == [])
    {
      hide Valid, Objects, Disjoint, Links, NoDup, Chained;
      Linked(q);
      empty := lists[q].Empty();
    }

    lemma ListApart(q: QueueId)
      requires Valid() && q in lists
      ensures forall r, e :: r in lists && r != q && e in lists[r].Nodes() ==> e !in lists[q].Nodes()
      ensures forall r :: r in lists && r != q ==> lists[r] != lists[q]
    {
      hide Links, Disjoint, Valid;
      Parts();
      forall r, e | r in lists && r != q && e in lists[r].Nodes() ensures e !in lists[q].Nodes() {
        NodeIs(r, ids[r], e);
        if e in lists[q].Nodes() {
          NodeIs(q, ids[q], e);
          OneQueue(ids, q, r, e.id);
        }
      }
    }

    lemma FirstTag(q: QueueId)
      requires Objects() && q in lists && q in ids && ids[q] != [] && Known(tag, ids[q]) && lists[q].elems == Tags(tag, ids[q])
      ensures lists[q].elems[0].id == ids[q][0]
    {
      assert ids[q][0] in ids[q];
    }
  }

  lemma TagsFirst(tag: map<Tid, Elem>, ids: seq<Tid>)
    requires ids != [] && Known(tag, ids)
    ensures |Tags(tag, ids)| == |ids| && Known(tag, ids[1..]) && Tags(tag, ids[1..]) == Tags(tag, ids)[1..]
    ensures forall t :: t in ids[1..] ==> t in ids
  {
  }

  /** The links, the lists and their sentinels. */
  ghost function ObjectsOf(tag: map<Tid, Elem>, ls: map<QueueId, List>): (r: set<object>)
    ensures forall t :: t in tag ==> tag[t] in r
    ensures forall q :: q in ls ==> ls[q] in r && ls[q].head in r && ls[q].tail in r
    ensures forall o :: o in r ==>
              || (exists t :: t in tag && o == tag[t])
              || exists q :: q in ls && (o == ls[q] || o == ls[q].head || o == ls[q].tail)
  {
    (set t | t in tag :: tag[t] as object) + (set q | q in ls :: ls[q] as object)
    + (set q | q in ls :: ls[q].head as object) + set q | q in ls :: ls[q].tail as object
  }

  method NewTags(threads: seq<Tid>) returns (tags: map<Tid, Elem>)
    ensures forall t :: t in tags <==> t in threads
    ensures forall t :: t in tags ==> fresh(tags[t]) && tags[t].id == t
  {
    tags := map[];
    for i := 0 to |threads|
      invariant forall t :: t in tags <==> t in threads[..i]
      invariant forall t :: t in tags ==> fresh(tags[t]) && tags[t].id == t
    {
      var e := new Elem(threads[i]);
      tags := tags[threads[i] := e];
    }
  }

  /** The lists have their own sentinels. */
  ghost predicate Separate(ls: map<QueueId, List>) {
    forall q, r :: q in ls && r in ls && q != r ==>
      ls[q] != ls[r] && ls[q].head != ls[r].head && ls[q].head != ls[r].tail && ls[q].tail != ls[r].tail
  }

  method NewObjects(threads: seq<Tid>, semas: seq<SemaId>) returns (tags: map<Tid, Elem>, ls: map<QueueId, List>)
    ensures fresh(ObjectsOf(tags, ls)) && Separate(ls) && (forall t :: t in tags <==> t in threads)
    ensures forall t :: t in tags ==> tags[t].id == t
    ensures forall q :: q in ls <==> q == Ready || (q.Wait? && q.s in semas)
    ensures forall q, t :: q in ls && t in tags ==> tags[t] != ls[q].head && tags[t] != ls[q].tail
    ensures forall q :: q in ls ==> ls[q].Valid() && ls[q].elems == []
  {
    hide Separate, Chained, NoDup;
    tags := NewTags(threads);
    ls := NewLists(semas);
  }

  lemma NoneQueued(ids: map<QueueId, seq<Tid>>)
    requires forall q :: q in ids ==> ids[q] == []
    ensures Disjoint(ids)
  {
  }

  method NewLists(semas: seq<SemaId>) returns (ls: map<QueueId, List>)
    ensures forall q :: q in ls <==> q == Ready || (q.Wait? && q.s in semas)
    ensures Separate(ls)
    ensures forall q :: q in ls ==> fresh(ls[q]) && fresh(ls[q].head) && fresh(ls[q].tail) && ls[q].Valid() && ls[q].elems == []
  {
    hide Chained, NoDup;
    var ready := new List();
    ls := map[Ready := ready];
    for i := 0 to |semas|
      invariant forall q :: q in ls <==> q == Ready || (q.Wait? && q.s in semas[..i])
      invariant Separate(ls)
      invariant forall q :: q in ls ==> fresh(ls[q]) && fresh(ls[q].head) && fresh(ls[q].tail) && ls[q].Valid() && ls[q].elems == []
    {
      var l := new List();
      ls := ls[Wait(semas[i]) := l];
    }
  }

  lemma OneQueue(ids: map<QueueId, seq<Tid>>, q: QueueId, r: QueueId, t: Tid)
    requires Disjoint(ids) && q in ids && r in ids && q != r
    ensures !(t in ids[q] && t in ids[r])
  {
  }

  lemma TagsMore(tag: map<Tid, Elem>, ids: seq<Tid>, t: Tid)
    requires t in tag && Known(tag, ids)
    ensures Known(tag, [t] + ids) && Tags(tag, [t] + ids) == [tag[t]] + Tags(tag, ids)
    ensures Known(tag, ids + [t]) && Tags(tag, ids + [t]) == Tags(tag, ids) + [tag[t]]
  {
  }

  lemma MoreDisjoint(ids: map<QueueId, seq<Tid>>, q: QueueId, t: Tid, list: seq<Tid>)
    requires Disjoint(ids) && q in ids
    requires (forall r :: r in ids ==> t !in ids[r]) && forall u :: u in list ==> u in ids[q] || u == t
    ensures Disjoint(ids[q := list])
  {
  }

  lemma LessDisjoint(ids: map<QueueId, seq<Tid>>, q: QueueId, list: seq<Tid>)
    requires Disjoint(ids) && q in ids && forall u :: u in list ==> u in ids[q]
    ensures Disjoint(ids[q := list])
  {
  }
}
