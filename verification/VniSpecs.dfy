/** What a VPC's record says at any moment of a run: its spec is the users' last word, its status the last reconcile's
    that still found the VPC as it had read it. */
module VniSpecs {
  import opened Order
  import opened Vni

  /** The last pin written for a VPC created at step i. */
  function LatestPin(events: seq<Event>, i: nat, n: nat, id: string): int
    requires i < n <= |events| && events[i].Create?
  {
    if n == i + 1 then events[i].pin
    else if events[n - 1].EditPin? && events[n - 1].id == id then events[n - 1].pin
    else LatestPin(events, i, n - 1, id)
  }

  /** Created at step i and not removed before step n. */
  predicate CreatedAt(events: seq<Event>, i: nat, n: nat, id: string)
    requires n <= |events|
  {
    i < n && events[i].Create? && events[i].id == id && forall j :: i < j < n ==> events[j] != Remove(id)
  }

  lemma StepSpecs(w: World, e: Event, id: string)
    requires Allowed(w, e)
    ensures id in After(w, e).vpcs <==> (e.Create? && e.id == id) || (id in w.vpcs && e != Remove(id))
    ensures e.Create? && e.id == id ==>
              After(w, e).vpcs[id] == Vpc(e.uid, e.created, e.pin, false, 0, Unset)
    ensures id in w.vpcs && e != Remove(id) ==>
              var v, v' := w.vpcs[id], After(w, e).vpcs[id];
              && v'.uid == v.uid && v'.created == v.created && (v'.deleting <==> v.deleting || e == MarkDeleted(id))
              && v'.pin == if e.EditPin? && e.id == id then e.pin else v.pin
  {
    hide Plan;
  }

  /** In every run a VPC is there if and only if it was created and not removed since. */
  lemma {:induction false} PresentExactly(run: seq<World>, events: seq<Event>, n: nat, id: string)
    requires IsRun(run, events) && n <= |events|
    ensures id in run[n].vpcs <==> exists i: nat :: CreatedAt(events, i, n, id)
  {
    if n > 0 {
      var m, e := n - 1, events[n - 1];
      PresentExactly(run, events, m, id);
      assert Allowed(run[n - 1], e) && run[n - 1 + 1] == After(run[n - 1], e);
      StepSpecs(run[n - 1], e, id);
      hide After, Allowed;
      if e.Create? && e.id == id { assert CreatedAt(events, n - 1, n, id); }
      if e != Remove(id) {
        if i: nat :| CreatedAt(events, i, m, id) { assert CreatedAt(events, i, n, id); }
      }
      if i: nat :| CreatedAt(events, i, n, id) && i < m { assert CreatedAt(events, i, m, id); }
    }
  }

  /** Its UID and age are the creation's, its pin the last one a user wrote, and it is on its way out if and only if a
      user deleted it: no reconcile touches a spec. */
  lemma {:induction false} SpecIsUsers(run: seq<World>, events: seq<Event>, i: nat, n: nat, id: string)
    requires IsRun(run, events) && n <= |events| && CreatedAt(events, i, n, id)
    ensures id in run[n].vpcs
    ensures var v := run[n].vpcs[id];
            && v.uid == events[i].uid && v.created == events[i].created && v.pin == LatestPin(events, i, n, id)
            && (v.deleting <==> exists j :: i < j < n && events[j] == MarkDeleted(id))
  {
    var e := events[n - 1];
    assert Allowed(run[n - 1], e) && run[n - 1 + 1] == After(run[n - 1], e);
    StepSpecs(run[n - 1], e, id);
    hide After, Allowed;
    if i < n - 1 {
      SpecIsUsers(run, events, i, n - 1, id);
      assert (exists j :: i < j < n && events[j] == MarkDeleted(id)) <==>
             (exists j :: i < j < n - 1 && events[j] == MarkDeleted(id)) || e == MarkDeleted(id);
    }
  }

  /** A status changes only by the commit of a reconcile of that very VPC, still as it was read, and becomes what that
      reconcile planned; every commit or surrender frees the way for the next reconcile. */
  lemma StatusOnlyByCommit(w: World, e: Event, id: string)
    requires Allowed(w, e) && id in w.vpcs && e != Remove(id)
    ensures id in After(w, e).vpcs
    ensures var v, v' := w.vpcs[id], After(w, e).vpcs[id];
            if e.Commit? && w.pending.value.id == id && w.pending.value.seen == v
            then v'.vni == w.pending.value.status.vni && v'.state == w.pending.value.status.state
            else v'.vni == v.vni && v'.state == v.state
    ensures e.Commit? || e.GiveUp? ==> After(w, e).pending.None?
  {
    hide Plan;
  }
}
