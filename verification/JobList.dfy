/** The intrusive job list of `workev.c` on the heap: the LL_ADD and LL_REMOVE macros. Adding links
    the new head forward only, so no node of the list ever has a predecessor link. */
module JobList {

  /** `job` stands for the job's function and its data. */
  class JobNode {
    const job: nat
    var prev: JobNode?
    var next: JobNode?

    constructor (job: nat)
      ensures this.job == job && prev == null && next == null
    {
      this.job := job;
      prev := null;
      next := null;
    }
  }

  /** What is left of a list when LL_REMOVE is applied to its node at k. */
  ghost function Rest(nodes: seq<JobNode>, k: nat, linkedBack: bool): seq<JobNode>
    requires k < |nodes|
  {
    if k == 0 then nodes[1..]
    else if linkedBack then nodes[..k] + nodes[k + 1..]
    else nodes[..k + 1]
  }

  lemma RestIsDistinct(nodes: seq<JobNode>, k: nat, linkedBack: bool)
    requires k < |nodes| && forall i, j :: 0 <= i < j < |nodes| ==> nodes[i] != nodes[j]
    ensures
      var r := Rest(nodes, k, linkedBack);
      forall i, j :: 0 <= i < j < |r| ==> r[i] != r[j]
    ensures nodes[k] !in Rest(nodes, k, linkedBack) <==> k == 0 || linkedBack
  {
    var r := Rest(nodes, k, linkedBack);
    if k > 0 && !linkedBack {
      assert r[k] == nodes[k];
    }
  }

  class JobStack {
    var list: JobNode?
    ghost var Nodes: seq<JobNode>

    /** The `next` chain from the head; a predecessor link, where there is one, is right. */
    ghost predicate Valid()
      reads this, Nodes
    {
      && list == (if Nodes == [] then null else Nodes[0])
      && (forall i {:trigger Nodes[i].next} :: 0 <= i < |Nodes| ==>
            Nodes[i].next == if i + 1 < |Nodes| then Nodes[i + 1] else null)
      && (forall i {:trigger Nodes[i].prev} :: 0 <= i < |Nodes| ==>
            Nodes[i].prev == null || (0 < i && Nodes[i].prev == Nodes[i - 1]))
      && (forall i, j :: 0 <= i < j < |Nodes| ==> Nodes[i] != Nodes[j])
    }

    /** No node has a predecessor link at all: what the list looks like in use. */
    ghost predicate ForwardOnly()
      reads this, Nodes
    {
      forall i {:trigger Nodes[i].prev} :: 0 <= i < |Nodes| ==> Nodes[i].prev == null
    }

    ghost function Jobs(): (js: seq<nat>)
      reads this
      ensures |js| == |Nodes|
    {
      seq(|Nodes|, i requires 0 <= i < |Nodes| reads this => Nodes[i].job)
    }

    constructor ()
      ensures Valid() && ForwardOnly() && Nodes == []
    {
      list := null;
      Nodes := [];
    }

    /** LL_ADD: the job becomes the head, so the list is a stack. The old head gets no link back. */
    method Add(item: JobNode)
      requires Valid() && ForwardOnly() && item !in Nodes
      modifies this, item
      ensures Valid() && ForwardOnly() && Nodes == [item] + old(Nodes)
      ensures Jobs() == [item.job] + old(Jobs())
    {
      item.prev := null;
      item.next := list;
      list := item;
      Nodes := [item] + Nodes;
    }

    /** LL_REMOVE takes out exactly its node when that is the head or has its predecessor link.
        Otherwise the node stays, and everything behind it is cut off. */
    method Remove(item: JobNode, ghost k: nat)
      requires Valid() && k < |Nodes| && item == Nodes[k]
      modifies this, Nodes
      ensures Valid()
      ensures Nodes == Rest(old(Nodes), k, old(item.prev) != null)
      ensures item !in Nodes <==> item == old(list) || old(item.prev) != null
      ensures item.prev == null && item.next == null
      ensures old(ForwardOnly()) ==> ForwardOnly()
    {
      RestIsDistinct(Nodes, k, item.prev != null);
      assert forall i :: 0 <= i < |Nodes| && i != k ==> Nodes[i] != item;
      ghost var rest := Rest(Nodes, k, item.prev != null);
      if item.prev != null {
        item.prev.next := item.next;
      }
      if item.next != null {
        item.next.prev := item.prev;
      }
      if list == item {
        list := item.next;
      }
      item.prev := null;
      item.next := null;
      Nodes := rest;
    }

    /** What shutdown does to the list: the jobs are left to their owners. */
    method Clear()
      modifies this
      ensures Valid() && ForwardOnly() && Nodes == [] && Jobs() == []
    {
      list := null;
      Nodes := [];
    }

    /** What a worker does under the mutex: it takes the head, which in a list built by LL_ADD is
        the one node that LL_REMOVE takes out. */
    method TakeHead() returns (job: JobNode?)
      requires Valid() && ForwardOnly()
      modifies this, Nodes
      ensures Valid() && ForwardOnly()
      ensures old(Nodes) == [] ==> job == null && Nodes == []
      ensures old(Nodes) != [] ==> job == old(Nodes)[0] && Nodes == old(Nodes)[1..] && job !in Nodes
      ensures old(Nodes) != [] ==> job.job == old(Jobs())[0] && Jobs() == old(Jobs())[1..]
    {
      job := list;
      if job != null {
        Remove(job, 0);
      }
    }
  }
}
