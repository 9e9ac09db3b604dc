/** Resources and contexts of the virtio-gpu frontend, and how they are torn down.

    The bodies of `AttachResource`, `DetachResource`, `Destroy`, `CreateAddressSpaceGraphicsInstance`
    and `TakeAddressSpaceGraphicsHandle` are not in the repository: attaching and detaching are taken to
    update the two sides' sets, creating a handle to record it with its context if there is one, taking
    it to remove it, destroying to be counted. */
module Frontend {
  import opened Wrappers

  type ResourceId = nat
  type ContextId = nat
  type AsgHandle = nat

  /** Held through shared pointers. */
  class Resource {
    var attached: set<ContextId>   // GetAttachedContexts
    var destroyed: nat             // how often Destroy ran

    constructor ()
      ensures attached == {} && destroyed == 0
    {
      attached, destroyed := {}, 0;
    }
  }

  /** Held by value.  `asg` holds the address-space-graphics handles made for a resource. */
  datatype Context = Context(resources: set<ResourceId>, asg: map<ResourceId, AsgHandle>)

  /** A task for the cleanup thread: destroy the handle, and keep the ring blob of `blobOf` until then. */
  datatype Cleanup = Cleanup(context: ContextId, resource: ResourceId, blobOf: Resource, handle: AsgHandle)

  type Contexts = map<ContextId, Context>
  type Resources = map<ResourceId, Resource>

  // ----- What detaching does to contexts and cleanups

  /** Detaching each of `pairs` takes both members of the pair off the context and turns its handle, if it had
      one, into exactly one task. */
  ghost predicate Detached(rs: Resources, before: Contexts, cleanups: seq<Cleanup>, after: Contexts, cleanups': seq<Cleanup>,
      pairs: iset<(ContextId, ResourceId)>)
  {
    && after.Keys == before.Keys
    && (forall c, i :: c in before ==>
          (i in after[c].resources <==> i in before[c].resources && (c, i) !in pairs))
    && (forall c, i :: c in before ==>
          (i in after[c].asg <==> i in before[c].asg && (c, i) !in pairs))
    && (forall c, i :: c in before && i in after[c].asg ==> after[c].asg[i] == before[c].asg[i])
    && cleanups <= cleanups'
    && TakesExactly(rs, before, cleanups'[|cleanups|..], pairs)
  }

  /** One task for each pair that had a handle, and no other. */
  ghost predicate TakesExactly(rs: Resources, before: Contexts, tasks: seq<Cleanup>, pairs: iset<(ContextId, ResourceId)>) {
    && (forall k :: 0 <= k < |tasks| ==> IsTask(rs, before, tasks[k], pairs))
    && (forall c, i :: (c, i) in pairs && c in before && i in before[c].asg && i in rs ==>
          Cleanup(c, i, rs[i], before[c].asg[i]) in tasks)
    && forall a, b :: 0 <= a < b < |tasks| ==> tasks[a] != tasks[b]
  }

  ghost predicate IsTask(rs: Resources, before: Contexts, x: Cleanup, pairs: iset<(ContextId, ResourceId)>) {
    && (x.context, x.resource) in pairs && x.context in before && x.resource in before[x.context].asg
    && x.handle == before[x.context].asg[x.resource]
    && x.resource in rs && x.blobOf == rs[x.resource]
  }

  /** No context that exists is in any of the pairs. */
  ghost predicate Idle(before: Contexts, pairs: iset<(ContextId, ResourceId)>) {
    forall c, i :: (c, i) in pairs ==> c !in before
  }

  lemma DetachedNothing(rs: Resources, contexts: Contexts, cleanups: seq<Cleanup>, pairs: iset<(ContextId, ResourceId)>)
    requires Idle(contexts, pairs)
    ensures Detached(rs, contexts, cleanups, contexts, cleanups, pairs)
  {
  }

  lemma IdleChangesNothing(rs: Resources, before: Contexts, cleanups: seq<Cleanup>, after: Contexts, cleanups': seq<Cleanup>,
      pairs: iset<(ContextId, ResourceId)>)
    requires Detached(rs, before, cleanups, after, cleanups', pairs) && Idle(before, pairs)
    ensures after == before && cleanups' == cleanups
  {
    forall c | c in before
      ensures after[c] == before[c]
    {
      assert forall i :: (c, i) !in pairs;
      assert after[c].resources == before[c].resources;
      assert after[c].asg == before[c].asg;
    }
    var tasks := cleanups'[|cleanups|..];
    assert tasks == [] || IsTask(rs, before, tasks[0], pairs);
  }

  /** Detaching some pairs and then others is detaching all of them. */
  lemma DetachedTwice(rs: Resources, c0: Contexts, t0: seq<Cleanup>, c1: Contexts, t1: seq<Cleanup>, c2: Contexts, t2: seq<Cleanup>,
      p: iset<(ContextId, ResourceId)>, q: iset<(ContextId, ResourceId)>)
    requires Detached(rs, c0, t0, c1, t1, p) && Detached(rs, c1, t1, c2, t2, q)
    ensures Detached(rs, c0, t0, c2, t2, p + q)
  {
    var first, second := t1[|t0|..], t2[|t1|..];
    assert t2[|t0|..] == first + second;
    TasksTwice(rs, c0, c1, first, second, p, q);
  }

  lemma TasksTwice(rs: Resources, c0: Contexts, c1: Contexts, first: seq<Cleanup>, second: seq<Cleanup>,
      p: iset<(ContextId, ResourceId)>, q: iset<(ContextId, ResourceId)>)
    requires TakesExactly(rs, c0, first, p) && TakesExactly(rs, c1, second, q)
    requires c1.Keys == c0.Keys
    requires forall c, i :: c in c0 ==> (i in c1[c].asg <==> i in c0[c].asg && (c, i) !in p)
    requires forall c, i :: c in c0 && i in c1[c].asg ==> c1[c].asg[i] == c0[c].asg[i]
    ensures TakesExactly(rs, c0, first + second, p + q)
  {
    var both := first + second;
    forall k | 0 <= k < |both|
      ensures IsTask(rs, c0, both[k], p + q)
    {
      if k < |first| {
        assert IsTask(rs, c0, first[k], p);
      } else {
        assert IsTask(rs, c1, second[k - |first|], q);
      }
    }
    forall a, b | 0 <= a < |first| && 0 <= b < |second|
      ensures first[a] != second[b]
    {
      assert IsTask(rs, c0, first[a], p) && IsTask(rs, c1, second[b], q);
    }
  }

  // ----- The frontend

  class VirtioGpuFrontend {
    var contexts: Contexts
    var resources: Resources
    var cleanups: seq<Cleanup>   // handed to mCleanupThread, oldest first

    /** Every id has its own object. */
    ghost predicate Valid()
      reads this
    {
      forall a, b :: a in resources && b in resources && resources[a] == resources[b] ==> a == b
    }

    constructor ()
      ensures Valid() && contexts == map[] && resources == map[] && cleanups == []
    {
      contexts, resources, cleanups := map[], map[], [];
    }

    /** Whatever stood under the id before is replaced, not destroyed. */
    method CreateResource(id: ResourceId)
      requires Valid()
      modifies this`resources
      ensures Valid() && id in resources && fresh(resources[id])
      ensures resources == old(resources)[id := resources[id]]
      ensures resources[id].attached == {} && resources[id].destroyed == 0
    {
      var resource := new Resource();
      resources := resources[id := resource];
    }

    method AttachResource(context: ContextId, id: ResourceId)
      requires Valid()
      modifies this`contexts, resources.Values`attached
      ensures contexts.Keys == old(contexts).Keys
      ensures forall i :: i in resources ==>
                resources[i].attached ==
                old(resources[i].attached) + if i == id && context in contexts then {context} else {}
      ensures forall c :: c in contexts ==>
                contexts[c] == old(contexts)[c].(resources :=
                old(contexts)[c].resources + if c == context && id in resources then {id} else {})
    {
      if context in contexts && id in resources {
        var resource := resources[id];
        resource.attached := resource.attached + {context};
        contexts := contexts[context := contexts[context].(resources := contexts[context].resources + {id})];
      }
    }

    /** Makes a graphics instance on the ring in a resource.  An unknown context or resource is an error, and so
        is a creation that gives no handle; an error changes nothing. */
    method CreateContextInstance(context: ContextId, id: ResourceId, creation: Option<AsgHandle>) returns (ok: bool)
      modifies this`contexts
      ensures ok <==> context in old(contexts) && id in resources && creation.Some?
      ensures ok ==>
        contexts == old(contexts)[context := old(contexts)[context].(asg := old(contexts)[context].asg[id := creation.value])]
      ensures !ok ==> contexts == old(contexts)
    {
      if context !in contexts || id !in resources {
        return false;
      }
      ok := creation.Some?;
      if ok {
        contexts := contexts[context := contexts[context].(asg := contexts[context].asg[id := creation.value])];
      }
    }

    /** Detaches on both sides; a handle the context had for the resource goes to the cleanup thread together
        with the resource's ring blob.  An unknown context or resource is reported and otherwise ignored. */
    method DetachResource(context: ContextId, id: ResourceId)
      requires Valid()
      modifies this`contexts, this`cleanups, resources.Values`attached
      ensures forall i :: i in resources ==>
                resources[i].attached ==
                old(resources[i].attached) - if i == id && context in contexts then {context} else {}
      ensures id in resources ==>
                Detached(resources, old(contexts), old(cleanups), contexts, cleanups, iset{(context, id)})
      ensures id !in resources ==> contexts == old(contexts) && cleanups == old(cleanups)
    {
      if context !in contexts {
        DetachedNothing(resources, contexts, cleanups, iset{(context, id)});
        return;
      }
      if id !in resources {
        return;
      }
      var resource := resources[id];
      var c := contexts[context];
      if id in c.asg {
        cleanups := cleanups + [Cleanup(context, id, resource, c.asg[id])];
        c := c.(asg := c.asg - {id});
      }
      resource.attached := resource.attached - {context};
      contexts := contexts[context := c.(resources := c.resources - {id})];
      assert cleanups[|old(cleanups)|..] ==
        if id in old(contexts)[context].asg then [Cleanup(context, id, resource, old(contexts)[context].asg[id])] else [];
    }

    /** Detach `id` from each of `attached`, a copy of the resource's own set, which the calls
        change under the loop. */
    method DetachFrom(attached: set<ContextId>, id: ResourceId)
      requires Valid() && id in resources
      modifies this`contexts, this`cleanups, resources.Values`attached
      ensures forall i :: i in resources ==>
                resources[i].attached ==
                old(resources[i].attached) - if i == id then attached * contexts.Keys else {}
      ensures Detached(resources, old(contexts), old(cleanups), contexts, cleanups, With(attached, id))
    {
      var rest := attached;
      DetachedNothing(resources, contexts, cleanups, With({}, id));
      while rest != {}
        invariant rest <= attached && contexts.Keys == old(contexts).Keys
        invariant forall i :: i in resources ==>
                    resources[i].attached ==
                    old(resources[i].attached) - if i == id then (attached - rest) * contexts.Keys else {}
        invariant Detached(resources, old(contexts), old(cleanups), contexts, cleanups, With(attached - rest, id))
        decreases rest
      {
        var context :| context in rest;
        assert attached - (rest - {context}) == (attached - rest) + {context};
        DetachOneMore(context, id, attached - rest, old(contexts), old(cleanups));
        rest := rest - {context};
      }
      assert attached - rest == attached;
    }

    method DetachOneMore(context: ContextId, id: ResourceId, ghost done: set<ContextId>, ghost contexts0: Contexts, ghost cleanups0: seq<Cleanup>)
      requires Valid() && id in resources
      requires Detached(resources, contexts0, cleanups0, contexts, cleanups, With(done, id))
      modifies this`contexts, this`cleanups, resources.Values`attached
      ensures contexts.Keys == old(contexts).Keys
      ensures forall i :: i in resources ==>
                resources[i].attached ==
                old(resources[i].attached) - if i == id && context in contexts then {context} else {}
      ensures Detached(resources, contexts0, cleanups0, contexts, cleanups, With(done + {context}, id))
    {
      ghost var c1, t1 := contexts, cleanups;
      DetachResource(context, id);
      DetachedTwice(resources, contexts0, cleanups0, c1, t1, contexts, cleanups, With(done, id), iset{(context, id)});
      assert With(done, id) + iset{(context, id)} == With(done + {context}, id);
    }

    /** The resource leaves every context that still exists, is destroyed once, and goes. */
    method UnrefResource(id: ResourceId)
      requires Valid()
      modifies this`resources, this`contexts, this`cleanups, resources.Values
      ensures Valid() && resources == old(resources) - {id}
      ensures forall i :: i in old(resources) && i != id ==>
                old(resources)[i].attached == old(resources[i].attached)
                && old(resources)[i].destroyed == old(resources[i].destroyed)
      ensures id in old(resources) ==>
                old(resources)[id].attached == old(resources[id].attached) - contexts.Keys
                && old(resources)[id].destroyed == old(resources[id].destroyed) + 1
                && Detached(old(resources), old(contexts), old(cleanups), contexts, cleanups, With(old(resources[id].attached), id))
      ensures id !in old(resources) ==> contexts == old(contexts) && cleanups == old(cleanups)
    {
      if id !in resources {
        return;
      }
      var resource := resources[id];
      DetachFrom(resource.attached, id);
      resource.destroyed := resource.destroyed + 1;
      resources := resources - {id};
    }

    /** Ids of all resources, in some order, each once. */
    method ResourceIds() returns (ids: seq<ResourceId>)
      ensures forall i :: i in ids <==> i in resources
      ensures forall a, b :: 0 <= a < b < |ids| ==> ids[a] != ids[b]
    {
      ids := [];
      var rest := resources.Keys;
      while rest != {}
        invariant rest <= resources.Keys
        invariant forall i :: i in ids <==> i in resources && i !in rest
        invariant forall a, b :: 0 <= a < b < |ids| ==> ids[a] != ids[b]
        decreases rest
      {
        var id :| id in rest;
        ids := ids + [id];
        rest := rest - {id};
      }
    }

    ghost function Attachments(): (att: map<ResourceId, set<ContextId>>)
      reads this, resources.Values
    {
      map i | i in resources :: resources[i].attached
    }

    /** First sweep: every listed resource leaves every known context. */
    method DetachAll(ids: seq<ResourceId>)
      requires Valid() && (forall i :: i in ids ==> i in resources)
      requires forall a, b :: 0 <= a < b < |ids| ==> ids[a] != ids[b]
      modifies this`contexts, this`cleanups, resources.Values`attached
      ensures forall i :: i in resources ==>
                resources[i].attached == old(resources[i].attached) - if i in ids then contexts.Keys else {}
      ensures Detached(resources, old(contexts), old(cleanups), contexts, cleanups, PairsOf(old(Attachments()), ids))
    {
      ghost var att := Attachments();
      DetachedNothing(resources, contexts, cleanups, PairsOf(att, []));
      for k := 0 to |ids|
        invariant contexts.Keys == old(contexts).Keys
        invariant forall i :: i in resources ==>
                    resources[i].attached == att[i] - if i in ids[..k] then contexts.Keys else {}
        invariant Detached(resources, old(contexts), old(cleanups), contexts, cleanups, PairsOf(att, ids[..k]))
      {
        assert ids[..k + 1] == ids[..k] + [ids[k]] && ids[k] !in ids[..k];
        DetachEverywhere(ids[k], ids[..k], att, old(contexts), old(cleanups));
      }
      assert ids[..|ids|] == ids;
    }

    /** One turn of the first sweep, with the resource looked up again. */
    method DetachEverywhere(id: ResourceId, ghost done: seq<ResourceId>, ghost att: map<ResourceId, set<ContextId>>,
        ghost contexts0: Contexts, ghost cleanups0: seq<Cleanup>)
      requires Valid() && id in resources && id in att && resources[id].attached == att[id]
      requires Detached(resources, contexts0, cleanups0, contexts, cleanups, PairsOf(att, done))
      modifies this`contexts, this`cleanups, resources.Values`attached
      ensures contexts.Keys == old(contexts).Keys
      ensures forall i :: i in resources ==>
                resources[i].attached == old(resources[i].attached) - if i == id then contexts.Keys else {}
      ensures Detached(resources, contexts0, cleanups0, contexts, cleanups, PairsOf(att, done + [id]))
    {
      if id !in resources {
        return;
      }
      ghost var c1, t1 := contexts, cleanups;
      var resource := resources[id];
      DetachFrom(resource.attached, id);
      DetachedTwice(resources, contexts0, cleanups0, c1, t1, contexts, cleanups, PairsOf(att, done), With(att[id], id));
      OneMorePair(att, done, id);
    }

    /** Unref after the first sweep: no known context has the resource any more. */
    method UnrefUnattached(id: ResourceId)
      requires Valid() && id in resources && resources[id].attached !! contexts.Keys
      modifies this`resources, this`contexts, this`cleanups, resources.Values
      ensures Valid() && resources == old(resources) - {id} && contexts == old(contexts) && cleanups == old(cleanups)
      ensures forall i :: i in old(resources) ==>
                old(resources)[i].attached == old(resources[i].attached)
                && old(resources)[i].destroyed == old(resources[i].destroyed) + if i == id then 1 else 0
    {
      ghost var rs, attached := resources, resources[id].attached;
      UnrefResource(id);
      IdleChangesNothing(rs, old(contexts), old(cleanups), contexts, cleanups, With(attached, id));
    }

    /** What the second sweep has done once the resources `ids` are still to come. */
    ghost predicate Unrefed(rs: Resources, destroyed: map<ResourceId, nat>, att: map<ResourceId, set<ContextId>>, ids: seq<ResourceId>)
      reads this, rs.Values
      requires destroyed.Keys == att.Keys == rs.Keys
    {
      && Valid()
      && (forall i :: i in resources <==> i in ids)
      && (forall i :: i in resources ==> i in rs && resources[i] == rs[i])
      && forall i :: i in rs ==>
           rs[i].attached == att[i] && rs[i].destroyed == destroyed[i] + if i in resources then 0 else 1
    }

    /** Second sweep: unref every listed resource, each still there when its turn comes. */
    method UnrefAll(ids: seq<ResourceId>)
      requires Valid() && (forall i :: i in ids <==> i in resources)
      requires forall a, b :: 0 <= a < b < |ids| ==> ids[a] != ids[b]
      requires forall i :: i in resources ==> resources[i].attached !! contexts.Keys
      modifies this`resources, this`contexts, this`cleanups, resources.Values
      ensures resources == map[] && contexts == old(contexts) && cleanups == old(cleanups)
      ensures forall i :: i in old(resources) ==>
                old(resources)[i].attached == old(resources[i].attached)
                && old(resources)[i].destroyed == old(resources[i].destroyed) + 1
    {
      ghost var rs, att := resources, Attachments();
      ghost var destroyed := map i | i in resources :: resources[i].destroyed;
      assert ids[0..] == ids;
      assert Unrefed(rs, destroyed, att, ids);
      for k := 0 to |ids|
        invariant contexts == old(contexts) && cleanups == old(cleanups)
        invariant resources.Values <= rs.Values
        invariant Unrefed(rs, destroyed, att, ids[k..])
      {
        assert ids[k..] == [ids[k]] + ids[k + 1..] && ids[k] !in ids[k + 1..];
        UnrefNext(ids[k], ids[k + 1..], rs, destroyed, att);
      }
      assert resources.Keys == {};
    }

    /** One turn of the second sweep. */
    method UnrefNext(id: ResourceId, ghost later: seq<ResourceId>, ghost rs: Resources, ghost destroyed: map<ResourceId, nat>,
        ghost att: map<ResourceId, set<ContextId>>)
      requires destroyed.Keys == att.Keys == rs.Keys && resources.Values <= rs.Values
      requires Unrefed(rs, destroyed, att, [id] + later) && id !in later
      requires forall a, b :: a in rs && b in rs && rs[a] == rs[b] ==> a == b
      requires att[id] !! contexts.Keys
      modifies this`resources, this`contexts, this`cleanups, resources.Values
      ensures contexts == old(contexts) && cleanups == old(cleanups) && resources.Values <= rs.Values
      ensures Unrefed(rs, destroyed, att, later)
    {
      assert id in [id] + later;
      UnrefUnattached(id);
    }

    /** Whatever is attached to whatever: every resource leaves every known context, is destroyed
        exactly once, and is gone; every handle a context had for a resource attached to it goes to the cleanup
        thread exactly once; a context keeps only what was not attached to it. */
    method DestroyVirtioGpuObjects()
      requires Valid()
      modifies this`resources, this`contexts, this`cleanups, resources.Values
      ensures Valid() && resources == map[]
      ensures forall i :: i in old(resources) ==>
                old(resources)[i].attached == old(resources[i].attached) - contexts.Keys
                && old(resources)[i].destroyed == old(resources[i].destroyed) + 1
      ensures Detached(old(resources), old(contexts), old(cleanups), contexts, cleanups, AllPairs(old(Attachments())))
    {
      ghost var att := Attachments();
      var ids := ResourceIds();
      DetachAll(ids);
      assert PairsOf(att, ids) == AllPairs(att);
      UnrefAll(ids);
      resources := map[];
    }
  }

  ghost function With(cs: set<ContextId>, id: ResourceId): iset<(ContextId, ResourceId)> {
    iset c | c in cs :: (c, id)
  }

  /** The listed resources with the contexts they are attached to. */
  ghost function PairsOf(att: map<ResourceId, set<ContextId>>, ids: seq<ResourceId>): iset<(ContextId, ResourceId)> {
    iset i, c | i in ids && i in att && c in att[i] :: (c, i)
  }

  ghost function AllPairs(att: map<ResourceId, set<ContextId>>): iset<(ContextId, ResourceId)> {
    iset i, c | i in att && c in att[i] :: (c, i)
  }

  lemma OneMorePair(att: map<ResourceId, set<ContextId>>, done: seq<ResourceId>, id: ResourceId)
    requires id in att
    ensures PairsOf(att, done) + With(att[id], id) == PairsOf(att, done + [id])
  {
  }
}
