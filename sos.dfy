/** The SOS monitor: per-user emergency sessions over the `sos_events` collection. Activation is
    idempotent, heartbeats advance the last activity time, the inactivity sweep escalates every
    active session silent for more than two minutes, and resolve closes the active session.
    The users collection and the nearby-hospital search are inputs. */
module Sos {
  import opened Common
  import opened Types

  /** Two minutes, in milliseconds. */
  const InactivityMs: int := 2 * 60 * 1000

  /** At most this many hospitals are notified. */
  const MaxHospitals: nat := 3

  /** The nearby-hospital search (5000 m around a location): what it returns for each location;
      a location that is absent is a search that threw. */
  type Facilities = map<Location, seq<Hospital>>

  predicate IsActiveFor(e: SosEvent, userId: string) {
    e.userId == userId && e.status == Active
  }

  /** `findOne({userId, status: 'active'})`: the first active event of the user. */
  function ActiveIndex(events: seq<SosEvent>, userId: string): (r: Option<nat>)
    ensures r.Some? ==> r.value < |events| && IsActiveFor(events[r.value], userId)
    ensures r.Some? ==> forall j :: 0 <= j < r.value ==> !IsActiveFor(events[j], userId)
    ensures r.None? <==> forall j :: 0 <= j < |events| ==> !IsActiveFor(events[j], userId)
  {
    FirstIndex(events, (e: SosEvent) => IsActiveFor(e, userId))
  }

  ghost predicate IdsArePositions(events: seq<SosEvent>) {
    forall i :: 0 <= i < |events| ==> events[i].id == i
  }

  ghost predicate AtMostOneActivePerUser(events: seq<SosEvent>) {
    forall i, j :: 0 <= i < j < |events| && events[i].status == Active && events[j].status == Active ==>
      events[i].userId != events[j].userId
  }

  ghost predicate ValidStore(events: seq<SosEvent>) {
    IdsArePositions(events) && AtMostOneActivePerUser(events)
  }

  // ---------------------------------------------------------------------------
  // Activation
  // ---------------------------------------------------------------------------

  function NewEvent(id: nat, userId: string, now: Timestamp): SosEvent {
    SosEvent(id, userId, now, Active, Some(now), None, [], [], None)
  }

  datatype Activation = Activation(events: seq<SosEvent>, event: SosEvent)

  /** `activateSOS`: the user's active event if there is one, otherwise a new active event. */
  function AfterActivate(events: seq<SosEvent>, userId: string, now: Timestamp): (r: Activation)
    ensures IsActiveFor(r.event, userId)
    ensures ActiveIndex(events, userId).Some? ==>
      r.events == events && r.event == events[ActiveIndex(events, userId).value]
    ensures ActiveIndex(events, userId).None? ==>
      && r.events == events + [r.event]
      && r.event.id == |events| && r.event.activatedAt == now && r.event.lastActivityCheck == Some(now)
      && r.event.emergencyContactsNotified == [] && r.event.hospitalsNotified == []
      && r.event.helpRequestedAt.None? && r.event.resolvedAt.None?
  {
    match ActiveIndex(events, userId)
    case Some(i) => Activation(events, events[i])
    case None => var e := NewEvent(|events|, userId, now); Activation(events + [e], e)
  }

  /** Activation keeps the store valid: ids stay positions and a user never gets a second active
      event. */
  lemma {:induction false} ActivatePreservesValid(events: seq<SosEvent>, userId: string, now: Timestamp)
    requires ValidStore(events)
    ensures ValidStore(AfterActivate(events, userId, now).events)
  {
    var r := AfterActivate(events, userId, now);
    if ActiveIndex(events, userId).None? {
      var all := r.events;
      forall i, j | 0 <= i < j < |all| && all[i].status == Active && all[j].status == Active
        ensures all[i].userId != all[j].userId
      {
        if j == |events| {
          assert !IsActiveFor(events[i], userId);
        } else {
          assert all[i] == events[i] && all[j] == events[j];
        }
      }
    }
  }

  /** Two activations in a row return the same event, and the second changes nothing. */
  lemma {:induction false} ActivateIsIdempotent(events: seq<SosEvent>, userId: string, t1: Timestamp, t2: Timestamp)
    ensures var first := AfterActivate(events, userId, t1);
            AfterActivate(first.events, userId, t2) == first
  {
    var first := AfterActivate(events, userId, t1);
    if ActiveIndex(events, userId).None? {
      var all := first.events;
      assert IsActiveFor(all[|events|], userId);
      var k := ActiveIndex(all, userId);
      assert k.Some?;
      assert forall j :: 0 <= j < |events| ==> all[j] == events[j];
    }
  }

  // ---------------------------------------------------------------------------
  // Heartbeat
  // ---------------------------------------------------------------------------

  /** `updateSOSActivity`: only the last activity time of the user's active event changes. */
  function AfterHeartbeat(events: seq<SosEvent>, userId: string, now: Timestamp): (r: seq<SosEvent>)
    ensures |r| == |events|
    ensures ActiveIndex(events, userId).None? ==> r == events
    ensures forall j :: 0 <= j < |events| && Some(j) != ActiveIndex(events, userId) ==> r[j] == events[j]
    ensures ActiveIndex(events, userId).Some? ==>
      var i := ActiveIndex(events, userId).value;
      r[i] == events[i].(lastActivityCheck := Some(now))
  {
    match ActiveIndex(events, userId)
    case None => events
    case Some(i) => events[i := events[i].(lastActivityCheck := Some(now))]
  }

  // ---------------------------------------------------------------------------
  // Escalation
  // ---------------------------------------------------------------------------

  /** `contact._id || contact.name` */
  function ContactKey(c: EmergencyContact): string {
    OrElse(c.id, c.name)
  }

  /** `hospital.placeId || hospital.name` */
  function HospitalKey(h: Hospital): string {
    OrElse(h.placeId, h.name)
  }

  /** Every emergency contact is notified, in the order they are stored. */
  function ContactKeys(contacts: seq<EmergencyContact>): (r: seq<string>)
    ensures |r| == |contacts|
    ensures forall i :: 0 <= i < |r| ==> r[i] == ContactKey(contacts[i])
  {
    seq(|contacts|, i requires 0 <= i < |contacts| => ContactKey(contacts[i]))
  }

  /** The first three hospitals the search returned, or all of them when it returned fewer. */
  function HospitalKeys(hospitals: seq<Hospital>): (r: seq<string>)
    ensures |r| <= MaxHospitals && |r| <= |hospitals|
    ensures |r| == MaxHospitals || |r| == |hospitals|
    ensures forall i :: 0 <= i < |r| ==> r[i] == HospitalKey(hospitals[i])
  {
    var n := if |hospitals| < MaxHospitals then |hospitals| else MaxHospitals;
    seq(n, i requires 0 <= i < n => HospitalKey(hospitals[i]))
  }

  /** No location: no search. A search that threw: no hospital. */
  function NotifiedHospitals(user: User, facilities: Facilities): (r: seq<string>)
    ensures user.location.None? ==> r == []
    ensures user.location.Some? && user.location.value !in facilities ==> r == []
    ensures user.location.Some? && user.location.value in facilities ==>
      r == HospitalKeys(facilities[user.location.value])
  {
    if user.location.Some? && user.location.value in facilities
    then HospitalKeys(facilities[user.location.value])
    else []
  }

  /** The fields escalation sets; everything else about the event stays as it was. */
  function Escalate(e: SosEvent, user: User, facilities: Facilities, now: Timestamp): (r: SosEvent)
    ensures r.id == e.id && r.userId == e.userId && r.status == e.status && r.activatedAt == e.activatedAt
    ensures r.lastActivityCheck == e.lastActivityCheck && r.resolvedAt == e.resolvedAt
    ensures r.helpRequestedAt == Some(now)
    ensures r.emergencyContactsNotified == ContactKeys(user.emergencyContacts)
    ensures r.hospitalsNotified == NotifiedHospitals(user, facilities)
    ensures |r.emergencyContactsNotified| == |user.emergencyContacts|
    ensures |r.hospitalsNotified| <= MaxHospitals
  {
    e.(helpRequestedAt := Some(now),
       emergencyContactsNotified := ContactKeys(user.emergencyContacts),
       hospitalsNotified := NotifiedHospitals(user, facilities))
  }

  /** `requestHelp` for one selected event: nothing when its user is unknown; otherwise the stored
      event with that id is escalated. */
  function AfterHelpRequest(events: seq<SosEvent>, ev: SosEvent, users: map<string, User>,
                            facilities: Facilities, now: Timestamp): (r: seq<SosEvent>)
    ensures |r| == |events|
    ensures forall j :: 0 <= j < |events| && j != ev.id ==> r[j] == events[j]
  {
    if ev.userId !in users || ev.id >= |events| then events
    else events[ev.id := Escalate(events[ev.id], users[ev.userId], facilities, now)]
  }

  /** Silent for more than two minutes, or never heard from. */
  predicate IsInactive(e: SosEvent, now: Timestamp) {
    e.status == Active && (e.lastActivityCheck.None? || e.lastActivityCheck.value < now - InactivityMs)
  }

  /** The sweep's query: the inactive active events, in store order. */
  function InactiveEvents(events: seq<SosEvent>, now: Timestamp): (r: seq<SosEvent>)
    ensures forall k :: 0 <= k < |r| ==> r[k] in events && IsInactive(r[k], now)
  {
    if |events| == 0 then []
    else
      var last := events[|events| - 1];
      InactiveEvents(events[..|events| - 1], now) + (if IsInactive(last, now) then [last] else [])
  }

  /** Help requests for the selected events, one after the other. */
  function ApplyHelpRequests(events: seq<SosEvent>, selected: seq<SosEvent>, users: map<string, User>,
                             facilities: Facilities, now: Timestamp): (r: seq<SosEvent>)
    ensures |r| == |events|
  {
    if |selected| == 0 then events
    else AfterHelpRequest(ApplyHelpRequests(events, selected[..|selected| - 1], users, facilities, now),
                          selected[|selected| - 1], users, facilities, now)
  }

  /** `checkSOSInactivity` */
  function AfterSweep(events: seq<SosEvent>, users: map<string, User>, facilities: Facilities, now: Timestamp): seq<SosEvent> {
    ApplyHelpRequests(events, InactiveEvents(events, now), users, facilities, now)
  }

  predicate Selected(e: SosEvent, users: map<string, User>, now: Timestamp) {
    IsInactive(e, now) && e.userId in users
  }

  /** Help requests for events that all lie below `|events|` leave an appended event alone. */
  lemma {:induction false} HelpRequestsIgnoreAppended(events: seq<SosEvent>, x: SosEvent, selected: seq<SosEvent>,
                                                     users: map<string, User>, facilities: Facilities, now: Timestamp)
    requires forall k :: 0 <= k < |selected| ==> selected[k].id < |events|
    ensures ApplyHelpRequests(events + [x], selected, users, facilities, now)
            == ApplyHelpRequests(events, selected, users, facilities, now) + [x]
  {
    if |selected| > 0 {
      var init := selected[..|selected| - 1];
      HelpRequestsIgnoreAppended(events, x, init, users, facilities, now);
      var before := ApplyHelpRequests(events, init, users, facilities, now);
      var ev := selected[|selected| - 1];
      if ev.userId in users {
        assert (before + [x])[ev.id := Escalate(before[ev.id], users[ev.userId], facilities, now)]
            == before[ev.id := Escalate(before[ev.id], users[ev.userId], facilities, now)] + [x];
      }
    }
  }

  /** Exact selection: the sweep escalates precisely the inactive active events whose user exists,
      each once, and leaves every other event as it was. */
  lemma {:induction false} SweepSelectsExactly(events: seq<SosEvent>, users: map<string, User>,
                                              facilities: Facilities, now: Timestamp)
    requires IdsArePositions(events)
    ensures |AfterSweep(events, users, facilities, now)| == |events|
    ensures forall i :: 0 <= i < |events| ==>
      AfterSweep(events, users, facilities, now)[i]
        == if Selected(events[i], users, now)
           then Escalate(events[i], users[events[i].userId], facilities, now)
           else events[i]
  {
    if |events| > 0 {
      var pre := events[..|events| - 1];
      var x := events[|events| - 1];
      SweepSelectsExactly(pre, users, facilities, now);
      SweepStep(events, users, facilities, now);
      var swept := AfterSweep(pre, users, facilities, now) + [x];
      var full := AfterSweep(events, users, facilities, now);
      assert x.id == |pre|;
      forall i | 0 <= i < |events|
        ensures full[i] == if Selected(events[i], users, now)
                           then Escalate(events[i], users[events[i].userId], facilities, now)
                           else events[i]
      {
        if i < |pre| {
          assert events[i] == pre[i] && swept[i] == AfterSweep(pre, users, facilities, now)[i];
        }
      }
    }
  }

  /** The events the query selects from a prefix all have ids below the prefix's length. */
  lemma SelectedIdsBelow(pre: seq<SosEvent>, now: Timestamp)
    requires IdsArePositions(pre)
    ensures forall k :: 0 <= k < |InactiveEvents(pre, now)| ==> InactiveEvents(pre, now)[k].id < |pre|
  {
    var selPre := InactiveEvents(pre, now);
    forall k | 0 <= k < |selPre| ensures selPre[k].id < |pre| {
      var e := selPre[k];
      assert e in pre;
      var p :| 0 <= p < |pre| && pre[p] == e;
    }
  }

  /** One more event: the sweep of the prefix, the new event appended, and then the new event's
      own help request when it is inactive. */
  lemma SweepStep(events: seq<SosEvent>, users: map<string, User>, facilities: Facilities, now: Timestamp)
    requires |events| > 0 && IdsArePositions(events)
    ensures var pre := events[..|events| - 1];
            var x := events[|events| - 1];
            AfterSweep(events, users, facilities, now)
              == if IsInactive(x, now)
                 then AfterHelpRequest(AfterSweep(pre, users, facilities, now) + [x], x, users, facilities, now)
                 else AfterSweep(pre, users, facilities, now) + [x]
  {
    var pre := events[..|events| - 1];
    var x := events[|events| - 1];
    var selPre := InactiveEvents(pre, now);
    SelectedIdsBelow(pre, now);
    HelpRequestsIgnoreAppended(pre, x, selPre, users, facilities, now);
    assert events == pre + [x];
    if IsInactive(x, now) {
      var sel := selPre + [x];
      assert InactiveEvents(events, now) == sel;
      assert sel[..|sel| - 1] == selPre;
    } else {
      assert InactiveEvents(events, now) == selPre;
    }
  }

  /** Escalation changes neither status nor id, so the store stays valid. */
  lemma SweepPreservesValid(events: seq<SosEvent>, users: map<string, User>, facilities: Facilities, now: Timestamp)
    requires ValidStore(events)
    ensures ValidStore(AfterSweep(events, users, facilities, now))
  {
    SweepSelectsExactly(events, users, facilities, now);
  }

  /** An escalated event that stays silent is selected again by a later sweep. */
  lemma EscalatedEventIsSelectedAgain(e: SosEvent, user: User, facilities: Facilities, t1: Timestamp, t2: Timestamp)
    requires IsInactive(e, t1) && t1 <= t2
    ensures IsInactive(Escalate(e, user, facilities, t1), t2)
  {
  }

  // ---------------------------------------------------------------------------
  // Resolve
  // ---------------------------------------------------------------------------

  /** `resolveSOS`: the user's active event becomes resolved; nothing else changes. */
  function AfterResolve(events: seq<SosEvent>, userId: string, now: Timestamp): (r: seq<SosEvent>)
    ensures |r| == |events|
    ensures ActiveIndex(events, userId).None? ==> r == events
    ensures forall j :: 0 <= j < |events| && Some(j) != ActiveIndex(events, userId) ==> r[j] == events[j]
    ensures forall j :: 0 <= j < |events| && events[j].userId != userId ==> r[j] == events[j]
    ensures ActiveIndex(events, userId).Some? ==>
      var i := ActiveIndex(events, userId).value;
      r[i] == events[i].(status := Resolved, resolvedAt := Some(now))
  {
    match ActiveIndex(events, userId)
    case None => events
    case Some(i) => events[i := events[i].(status := Resolved, resolvedAt := Some(now))]
  }

  /** After resolving, the user has no active event left. */
  lemma ResolveLeavesNoActive(events: seq<SosEvent>, userId: string, now: Timestamp)
    requires AtMostOneActivePerUser(events)
    ensures ActiveIndex(AfterResolve(events, userId, now), userId).None?
    ensures AtMostOneActivePerUser(AfterResolve(events, userId, now))
  {
    var r := AfterResolve(events, userId, now);
    match ActiveIndex(events, userId)
    case None =>
    case Some(i) =>
      forall j | 0 <= j < |r| ensures !IsActiveFor(r[j], userId) {
        if j != i {
          assert r[j] == events[j];
        }
      }
  }

  /** The session that is activated and immediately resolved is no longer active. */
  lemma ActivateThenResolve(events: seq<SosEvent>, userId: string, t1: Timestamp, t2: Timestamp)
    requires ValidStore(events)
    ensures ActiveIndex(AfterResolve(AfterActivate(events, userId, t1).events, userId, t2), userId).None?
  {
    ActivatePreservesValid(events, userId, t1);
    ResolveLeavesNoActive(AfterActivate(events, userId, t1).events, userId, t2);
  }

  /** A session activated at `t`, with no heartbeat for three minutes, is escalated by the sweep,
      and every emergency contact of its user is recorded. */
  lemma SilentSessionIsEscalated(events: seq<SosEvent>, user: User, facilities: Facilities, t: Timestamp)
    requires ValidStore(events) && ActiveIndex(events, user.id).None?
    requires |user.emergencyContacts| >= 1
    ensures var activated := AfterActivate(events, user.id, t).events;
            var swept := AfterSweep(activated, map[user.id := user], facilities, t + 3 * 60 * 1000);
            |swept| == |events| + 1
            && swept[|events|].helpRequestedAt == Some(t + 3 * 60 * 1000)
            && swept[|events|].emergencyContactsNotified == ContactKeys(user.emergencyContacts)
            && |swept[|events|].emergencyContactsNotified| >= 1
            && swept[|events|].status == Active
  {
    var activated := AfterActivate(events, user.id, t).events;
    ActivatePreservesValid(events, user.id, t);
    SweepSelectsExactly(activated, map[user.id := user], facilities, t + 3 * 60 * 1000);
    assert activated[|events|] == NewEvent(|events|, user.id, t);
  }

  // ---------------------------------------------------------------------------
  // The store
  // ---------------------------------------------------------------------------

  /** `contact._id || contact.name` for each emergency contact, in contact order. */
  method NotifyContacts(contacts: seq<EmergencyContact>) returns (notified: seq<string>)
    ensures |notified| == |contacts|
    ensures forall i :: 0 <= i < |contacts| ==> notified[i] == ContactKey(contacts[i])
  {
    notified := [];
    if |contacts| > 0 {
      for i := 0 to |contacts|
        invariant |notified| == i
        invariant forall j :: 0 <= j < i ==> notified[j] == ContactKey(contacts[j])
      {
        notified := notified + [ContactKey(contacts[i])];
      }
    }
  }

  /** The first three hospitals the search returned, by place id or name. */
  method NotifyHospitals(hospitals: seq<Hospital>) returns (notified: seq<string>)
    ensures |notified| == if |hospitals| < MaxHospitals then |hospitals| else MaxHospitals
    ensures forall i :: 0 <= i < |notified| ==> notified[i] == HospitalKey(hospitals[i])
  {
    var firstThree := hospitals[..if |hospitals| < MaxHospitals then |hospitals| else MaxHospitals];
    notified := [];
    for i := 0 to |firstThree|
      invariant |notified| == i
      invariant forall j :: 0 <= j < i ==> notified[j] == HospitalKey(firstThree[j])
    {
      notified := notified + [HospitalKey(firstThree[i])];
    }
  }

  class SosMonitor {
    var events: seq<SosEvent>

    ghost predicate Valid()
      reads this
    {
      ValidStore(events)
    }

    constructor ()
      ensures Valid() && events == []
    {
      events := [];
    }

    /** `getActiveSOS` */
    function GetActiveSOS(userId: string): (r: Option<SosEvent>)
      reads this
      ensures r.Some? ==> r.value in events && IsActiveFor(r.value, userId)
      ensures r.None? <==> forall j :: 0 <= j < |events| ==> !IsActiveFor(events[j], userId)
    {
      match ActiveIndex(events, userId)
      case None => None
      case Some(i) => Some(events[i])
    }

    method ActivateSOS(userId: string, now: Timestamp) returns (e: SosEvent)
      requires Valid()
      modifies this
      ensures Valid()
      ensures Activation(events, e) == AfterActivate(old(events), userId, now)
      ensures GetActiveSOS(userId) == Some(e)
    {
      ActivatePreservesValid(events, userId, now);
      ActivateIsIdempotent(events, userId, now, now);
      var existing := ActiveIndex(events, userId);
      if existing.Some? {
        return events[existing.value];
      }
      e := NewEvent(|events|, userId, now);
      events := events + [e];
    }

    method UpdateSOSActivity(userId: string, now: Timestamp)
      requires Valid()
      modifies this
      ensures Valid()
      ensures events == AfterHeartbeat(old(events), userId, now)
    {
      var i := ActiveIndex(events, userId);
      if i.Some? {
        events := events[i.value := events[i.value].(lastActivityCheck := Some(now))];
      }
    }

    /** `requestHelp`: contacts are recorded in order, at most three hospitals, and a failed
        hospital search leaves that list empty. */
    method RequestHelp(ev: SosEvent, users: map<string, User>, facilities: Facilities, now: Timestamp)
      modifies this
      ensures events == AfterHelpRequest(old(events), ev, users, facilities, now)
    {
      if ev.userId !in users {
        return;
      }
      var user := users[ev.userId];
      var contacts := NotifyContacts(user.emergencyContacts);
      assert contacts == ContactKeys(user.emergencyContacts);
      var hospitals: seq<string> := [];
      if user.location.Some? && user.location.value in facilities {
        hospitals := NotifyHospitals(facilities[user.location.value]);
        assert hospitals == HospitalKeys(facilities[user.location.value]);
      }
      if ev.id < |events| {
        events := events[ev.id := events[ev.id].(helpRequestedAt := Some(now),
                                                 emergencyContactsNotified := contacts,
                                                 hospitalsNotified := hospitals)];
      }
    }

    method CheckSOSInactivity(users: map<string, User>, facilities: Facilities, now: Timestamp)
      requires Valid()
      modifies this
      ensures Valid()
      ensures events == AfterSweep(old(events), users, facilities, now)
    {
      SweepPreservesValid(events, users, facilities, now);
      var inactive := InactiveEvents(events, now);
      var k := 0;
      while k < |inactive|
        invariant 0 <= k <= |inactive|
        invariant events == ApplyHelpRequests(old(events), inactive[..k], users, facilities, now)
      {
        assert inactive[..k + 1][..k] == inactive[..k];
        RequestHelp(inactive[k], users, facilities, now);
        k := k + 1;
      }
      assert inactive[..k] == inactive;
    }

    method ResolveSOS(userId: string, now: Timestamp)
      requires Valid()
      modifies this
      ensures Valid()
      ensures events == AfterResolve(old(events), userId, now)
      ensures GetActiveSOS(userId).None?
    {
      ResolveLeavesNoActive(events, userId, now);
      var i := ActiveIndex(events, userId);
      if i.Some? {
        events := events[i.value := events[i.value].(status := Resolved, resolvedAt := Some(now))];
      }
    }
  }
}
