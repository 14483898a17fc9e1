/** The in-memory store of src/lib/db.ts: a map of users and a map of
    automations, both keyed by record id and iterated in insertion order, and
    an append-only list of delivery logs. */
module Db {
  import opened Types
  import Keyed

  function UserKey(u: User): string { u.id }

  function AutomationKey(a: Automation): string { a.id }

  /** The three stores as one value. */
  datatype DbState = DbState(users: seq<User>, automations: seq<Automation>, logs: seq<AutomationLog>)

  /** Each map holds at most one record per id. */
  ghost predicate ValidState(st: DbState) {
    Keyed.Unique(st.users, UserKey) && Keyed.Unique(st.automations, AutomationKey)
  }

  // ---------------------------------------------------------------------------
  // updates

  /** A `Partial<User>` update: each present field overwrites the stored one.
      `id` and `updatedAt` are not part of an update (see README). */
  datatype UserPatch = UserPatch(
    instagramUserId: Option<string>,
    instagramUsername: Option<string>,
    accessToken: Option<string>,
    tokenExpiry: Option<int>,
    pageId: Option<string>,
    accountType: Option<AccountType>,
    createdAt: Option<int>)

  /** A `Partial<Automation>` update, likewise without `id` and `updatedAt`. */
  datatype AutomationPatch = AutomationPatch(
    userId: Option<string>,
    mediaId: Option<string>,
    mediaUrl: Option<Option<string>>,
    mediaThumbnail: Option<Option<string>>,
    mediaCaption: Option<Option<string>>,
    keyword: Option<string>,
    dmMessage: Option<string>,
    replyOncePerUser: Option<bool>,
    isActive: Option<bool>,
    dmsSent: Option<nat>,
    createdAt: Option<int>)

  const NoUserChange := UserPatch(None, None, None, None, None, None, None)

  const NoAutomationChange := AutomationPatch(None, None, None, None, None, None, None, None, None, None, None)

  /** `{ ...user, ...updates, updatedAt: now }`. */
  function PatchUser(u: User, p: UserPatch, now: int): (r: User)
    ensures r.id == u.id && r.updatedAt == now
  {
    User(
      u.id,
      p.instagramUserId.GetOr(u.instagramUserId),
      p.instagramUsername.GetOr(u.instagramUsername),
      p.accessToken.GetOr(u.accessToken),
      p.tokenExpiry.GetOr(u.tokenExpiry),
      p.pageId.GetOr(u.pageId),
      p.accountType.GetOr(u.accountType),
      p.createdAt.GetOr(u.createdAt),
      now)
  }

  /** `{ ...automation, ...updates, updatedAt: now }`. */
  function PatchAutomation(a: Automation, p: AutomationPatch, now: int): (r: Automation)
    ensures r.id == a.id && r.updatedAt == now
  {
    Automation(
      a.id,
      p.userId.GetOr(a.userId),
      p.mediaId.GetOr(a.mediaId),
      p.mediaUrl.GetOr(a.mediaUrl),
      p.mediaThumbnail.GetOr(a.mediaThumbnail),
      p.mediaCaption.GetOr(a.mediaCaption),
      p.keyword.GetOr(a.keyword),
      p.dmMessage.GetOr(a.dmMessage),
      p.replyOncePerUser.GetOr(a.replyOncePerUser),
      p.isActive.GetOr(a.isActive),
      p.dmsSent.GetOr(a.dmsSent),
      p.createdAt.GetOr(a.createdAt),
      now)
  }

  /** Each field present in the update overrides the stored one and each absent
      field keeps its stored value. */
  lemma PatchUserFields(u: User, p: UserPatch, now: int)
    ensures p.instagramUserId.Some? ==> PatchUser(u, p, now).instagramUserId == p.instagramUserId.value
    ensures p.instagramUserId.None? ==> PatchUser(u, p, now).instagramUserId == u.instagramUserId
    ensures p.instagramUsername.Some? ==> PatchUser(u, p, now).instagramUsername == p.instagramUsername.value
    ensures p.instagramUsername.None? ==> PatchUser(u, p, now).instagramUsername == u.instagramUsername
    ensures p.accessToken.Some? ==> PatchUser(u, p, now).accessToken == p.accessToken.value
    ensures p.accessToken.None? ==> PatchUser(u, p, now).accessToken == u.accessToken
    ensures p.tokenExpiry.Some? ==> PatchUser(u, p, now).tokenExpiry == p.tokenExpiry.value
    ensures p.tokenExpiry.None? ==> PatchUser(u, p, now).tokenExpiry == u.tokenExpiry
    ensures p.pageId.Some? ==> PatchUser(u, p, now).pageId == p.pageId.value
    ensures p.pageId.None? ==> PatchUser(u, p, now).pageId == u.pageId
    ensures p.accountType.Some? ==> PatchUser(u, p, now).accountType == p.accountType.value
    ensures p.accountType.None? ==> PatchUser(u, p, now).accountType == u.accountType
    ensures p.createdAt.Some? ==> PatchUser(u, p, now).createdAt == p.createdAt.value
    ensures p.createdAt.None? ==> PatchUser(u, p, now).createdAt == u.createdAt
  {
  }

  /** An empty update only refreshes `updatedAt`; applying an update a second
      time changes nothing but `updatedAt`. */
  lemma PatchUserSpec(u: User, p: UserPatch, now: int, later: int)
    ensures PatchUser(u, NoUserChange, now) == u.(updatedAt := now)
    ensures PatchUser(PatchUser(u, p, now), p, later) == PatchUser(u, p, later)
  {
  }

  /** The same for automations: present fields override, absent ones are kept. */
  lemma PatchAutomationFields(a: Automation, p: AutomationPatch, now: int)
    ensures p.userId.Some? ==> PatchAutomation(a, p, now).userId == p.userId.value
    ensures p.userId.None? ==> PatchAutomation(a, p, now).userId == a.userId
    ensures p.mediaId.Some? ==> PatchAutomation(a, p, now).mediaId == p.mediaId.value
    ensures p.mediaId.None? ==> PatchAutomation(a, p, now).mediaId == a.mediaId
    ensures p.mediaUrl.Some? ==> PatchAutomation(a, p, now).mediaUrl == p.mediaUrl.value
    ensures p.mediaUrl.None? ==> PatchAutomation(a, p, now).mediaUrl == a.mediaUrl
    ensures p.mediaThumbnail.Some? ==> PatchAutomation(a, p, now).mediaThumbnail == p.mediaThumbnail.value
    ensures p.mediaThumbnail.None? ==> PatchAutomation(a, p, now).mediaThumbnail == a.mediaThumbnail
    ensures p.mediaCaption.Some? ==> PatchAutomation(a, p, now).mediaCaption == p.mediaCaption.value
    ensures p.mediaCaption.None? ==> PatchAutomation(a, p, now).mediaCaption == a.mediaCaption
    ensures p.keyword.Some? ==> PatchAutomation(a, p, now).keyword == p.keyword.value
    ensures p.keyword.None? ==> PatchAutomation(a, p, now).keyword == a.keyword
    ensures p.dmMessage.Some? ==> PatchAutomation(a, p, now).dmMessage == p.dmMessage.value
    ensures p.dmMessage.None? ==> PatchAutomation(a, p, now).dmMessage == a.dmMessage
    ensures p.replyOncePerUser.Some? ==> PatchAutomation(a, p, now).replyOncePerUser == p.replyOncePerUser.value
    ensures p.replyOncePerUser.None? ==> PatchAutomation(a, p, now).replyOncePerUser == a.replyOncePerUser
    ensures p.isActive.Some? ==> PatchAutomation(a, p, now).isActive == p.isActive.value
    ensures p.isActive.None? ==> PatchAutomation(a, p, now).isActive == a.isActive
    ensures p.dmsSent.Some? ==> PatchAutomation(a, p, now).dmsSent == p.dmsSent.value
    ensures p.dmsSent.None? ==> PatchAutomation(a, p, now).dmsSent == a.dmsSent
    ensures p.createdAt.Some? ==> PatchAutomation(a, p, now).createdAt == p.createdAt.value
    ensures p.createdAt.None? ==> PatchAutomation(a, p, now).createdAt == a.createdAt
  {
  }

  /** Likewise: an empty update only refreshes `updatedAt`, and a repeated
      update changes nothing but `updatedAt`. */
  lemma PatchAutomationSpec(a: Automation, p: AutomationPatch, now: int, later: int)
    ensures PatchAutomation(a, NoAutomationChange, now) == a.(updatedAt := now)
    ensures PatchAutomation(PatchAutomation(a, p, now), p, later) == PatchAutomation(a, p, later)
  {
  }

  // ---------------------------------------------------------------------------
  // queries over the stores

  /** The first user at or after index `i` with Instagram id `igId`. */
  function FirstWithInstagramIdFrom(s: seq<User>, igId: string, i: nat): (r: Option<nat>)
    requires i <= |s|
    ensures r.Some? ==> i <= r.value < |s| && s[r.value].instagramUserId == igId
    decreases |s| - i
  {
    if i == |s| then None
    else if s[i].instagramUserId == igId then Some(i)
    else FirstWithInstagramIdFrom(s, igId, i + 1)
  }

  /** The first user, in insertion order, with Instagram id `igId`. */
  function UserByInstagramId(s: seq<User>, igId: string): (r: Option<User>)
    ensures r.Some? ==> r.value in s && r.value.instagramUserId == igId
  {
    match FirstWithInstagramIdFrom(s, igId, 0)
    case None => None
    case Some(i) => Some(s[i])
  }

  lemma {:induction false} FirstWithInstagramIdFromMisses(s: seq<User>, igId: string, i: nat)
    requires i <= |s|
    ensures var r := FirstWithInstagramIdFrom(s, igId, i);
            forall j :: i <= j < (if r.Some? then r.value else |s|) ==> s[j].instagramUserId != igId
    decreases |s| - i
  {
    if i < |s| && s[i].instagramUserId != igId {
      FirstWithInstagramIdFromMisses(s, igId, i + 1);
    }
  }

  /** No user has the Instagram id exactly when the lookup answers `None`;
      otherwise the answer is the first user that has it. */
  lemma UserByInstagramIdSpec(s: seq<User>, igId: string)
    ensures UserByInstagramId(s, igId).None? <==> forall u :: u in s ==> u.instagramUserId != igId
    ensures UserByInstagramId(s, igId).Some? ==>
              exists k :: 0 <= k < |s| && s[k] == UserByInstagramId(s, igId).value &&
                s[k].instagramUserId == igId && forall j :: 0 <= j < k ==> s[j].instagramUserId != igId
  {
    FirstWithInstagramIdFromMisses(s, igId, 0);
  }

  /** The rule condition of `getActiveAutomationByMediaId`. */
  predicate ActiveFor(a: Automation, mediaId: string) {
    a.mediaId == mediaId && a.isActive
  }

  /** The first automation at or after index `i` active for `mediaId`. */
  function FirstActiveFrom(s: seq<Automation>, mediaId: string, i: nat): (r: Option<nat>)
    requires i <= |s|
    ensures r.Some? ==> i <= r.value < |s| && ActiveFor(s[r.value], mediaId)
    decreases |s| - i
  {
    if i == |s| then None
    else if ActiveFor(s[i], mediaId) then Some(i)
    else FirstActiveFrom(s, mediaId, i + 1)
  }

  /** The first automation, in insertion order, active for `mediaId`. */
  function ActiveForMedia(s: seq<Automation>, mediaId: string): (r: Option<Automation>)
    ensures r.Some? ==> r.value in s && ActiveFor(r.value, mediaId)
  {
    match FirstActiveFrom(s, mediaId, 0)
    case None => None
    case Some(i) => Some(s[i])
  }

  lemma {:induction false} FirstActiveFromMisses(s: seq<Automation>, mediaId: string, i: nat)
    requires i <= |s|
    ensures var r := FirstActiveFrom(s, mediaId, i);
            forall j :: i <= j < (if r.Some? then r.value else |s|) ==> !ActiveFor(s[j], mediaId)
    decreases |s| - i
  {
    if i < |s| && !ActiveFor(s[i], mediaId) {
      FirstActiveFromMisses(s, mediaId, i + 1);
    }
  }

  /** The lookup answers `None` exactly when no stored automation is active for
      the media; otherwise it answers the first one that is. */
  lemma ActiveForMediaSpec(s: seq<Automation>, mediaId: string)
    ensures ActiveForMedia(s, mediaId).None? <==> forall a :: a in s ==> !ActiveFor(a, mediaId)
    ensures ActiveForMedia(s, mediaId).Some? ==>
              exists k :: 0 <= k < |s| && s[k] == ActiveForMedia(s, mediaId).value &&
                ActiveFor(s[k], mediaId) && forall j :: 0 <= j < k ==> !ActiveFor(s[j], mediaId)
  {
    FirstActiveFromMisses(s, mediaId, 0);
  }

  /** The automations of `s` owned by `userId`, in insertion order. */
  function OwnedBy(s: seq<Automation>, userId: string): (r: seq<Automation>)
    ensures forall a :: a in r <==> a in s && a.userId == userId
  {
    Keyed.FilterMembers(s, (a: Automation) => a.userId == userId);
    Keyed.Filter(s, (a: Automation) => a.userId == userId)
  }

  /** The logs of `logs` for automation `automationId`, in append order. */
  function LogsFor(logs: seq<AutomationLog>, automationId: string): (r: seq<AutomationLog>)
    ensures forall l :: l in r <==> l in logs && l.automationId == automationId
  {
    Keyed.FilterMembers(logs, (l: AutomationLog) => l.automationId == automationId);
    Keyed.Filter(logs, (l: AutomationLog) => l.automationId == automationId)
  }

  /** A log that records a DM sent for this (automation, commenter) pair. */
  predicate SentTo(l: AutomationLog, automationId: string, commenterId: string) {
    l.automationId == automationId && l.commenterInstagramId == commenterId && l.status == Sent
  }

  /** `automationLogs.some(...)`: some log records a DM sent to the pair. */
  function HasSent(logs: seq<AutomationLog>, automationId: string, commenterId: string): (r: bool)
    ensures r <==> exists i :: 0 <= i < |logs| && SentTo(logs[i], automationId, commenterId)
  {
    logs != [] &&
    (HasSent(logs[..|logs| - 1], automationId, commenterId) || SentTo(logs[|logs| - 1], automationId, commenterId))
  }

  /** `HasSent` holds exactly when a 'sent' log for the pair exists; appending
      a log changes it only if that log is such a 'sent' log, so 'skipped' and
      'failed' logs never count. */
  lemma {:induction false} HasSentSpec(logs: seq<AutomationLog>, automationId: string, commenterId: string)
    ensures HasSent(logs, automationId, commenterId) <==> exists l :: l in logs && SentTo(l, automationId, commenterId)
  {
    if logs != [] {
      var init := logs[..|logs| - 1];
      HasSentSpec(init, automationId, commenterId);
      assert logs == init + [logs[|logs| - 1]];
      if HasSent(init, automationId, commenterId) {
        var l :| l in init && SentTo(l, automationId, commenterId);
        assert l in logs;
      }
    }
  }

  lemma HasSentAppend(logs: seq<AutomationLog>, l: AutomationLog, automationId: string, commenterId: string)
    ensures HasSent(logs + [l], automationId, commenterId) <==>
              HasSent(logs, automationId, commenterId) || SentTo(l, automationId, commenterId)
  {
    assert (logs + [l])[..|logs|] == logs;
  }

  /** `incrementDmsSent` on the automation store: the automation with that id
      counts one more DM; an unknown id changes nothing. */
  function IncrementDms(s: seq<Automation>, id: string): (r: seq<Automation>)
    ensures |r| == |s|
    ensures forall j :: 0 <= j < |s| ==>
              r[j] == s[j] || (s[j].id == id && r[j] == s[j].(dmsSent := s[j].dmsSent + 1))
  {
    match Keyed.Find(s, AutomationKey, id)
    case None => s
    case Some(i) => s[i := s[i].(dmsSent := s[i].dmsSent + 1)]
  }

  /** With unique ids, exactly the automation with that id gains one DM, every
      other automation stays as it was, and ids stay unique. */
  lemma IncrementDmsSpec(s: seq<Automation>, id: string)
    requires Keyed.Unique(s, AutomationKey)
    ensures |IncrementDms(s, id)| == |s|
    ensures forall j :: 0 <= j < |s| ==>
              IncrementDms(s, id)[j] == if s[j].id == id then s[j].(dmsSent := s[j].dmsSent + 1) else s[j]
    ensures Keyed.Unique(IncrementDms(s, id), AutomationKey)
  {
    Keyed.FindSpec(s, AutomationKey, id);
  }

  lemma {:induction false} FirstActiveFromAgrees(s: seq<Automation>, t: seq<Automation>, mediaId: string, i: nat)
    requires i <= |s| == |t|
    requires forall k :: 0 <= k < |s| ==> ActiveFor(s[k], mediaId) == ActiveFor(t[k], mediaId)
    ensures FirstActiveFrom(s, mediaId, i) == FirstActiveFrom(t, mediaId, i)
    decreases |s| - i
  {
    if i < |s| {
      FirstActiveFromAgrees(s, t, mediaId, i + 1);
    }
  }

  /** Counting a DM never changes which automation a media's lookup finds; the
      one found only carries the new count. */
  lemma ActiveForMediaAfterIncrement(s: seq<Automation>, id: string, mediaId: string)
    requires Keyed.Unique(s, AutomationKey)
    ensures ActiveForMedia(IncrementDms(s, id), mediaId) ==
              match ActiveForMedia(s, mediaId)
              case None => None
              case Some(a) => Some(if a.id == id then a.(dmsSent := a.dmsSent + 1) else a)
  {
    IncrementDmsSpec(s, id);
    FirstActiveFromAgrees(s, IncrementDms(s, id), mediaId, 0);
  }

  // ---------------------------------------------------------------------------
  // the DM counter

  /** The number of 'sent' logs of an automation. */
  function SentCount(logs: seq<AutomationLog>, automationId: string): nat {
    if logs == [] then 0
    else
      var last := logs[|logs| - 1];
      SentCount(logs[..|logs| - 1], automationId) + (if last.automationId == automationId && last.status == Sent then 1 else 0)
  }

  lemma SentCountAppend(logs: seq<AutomationLog>, l: AutomationLog, automationId: string)
    ensures SentCount(logs + [l], automationId) ==
              SentCount(logs, automationId) + (if l.automationId == automationId && l.status == Sent then 1 else 0)
  {
    assert (logs + [l])[..|logs|] == logs;
  }

  /** Every automation's `dmsSent` is the number of its 'sent' logs. */
  ghost predicate CountersMatchLogs(st: DbState) {
    forall a :: a in st.automations ==> a.dmsSent == SentCount(st.logs, a.id)
  }

  /** The invariant of the stores: unique ids and counters in step with the
      logs. */
  ghost predicate Inv(st: DbState) {
    ValidState(st) && CountersMatchLogs(st)
  }

  /** No 'sent' log is counted for an automation with no 'sent' log. */
  lemma {:induction false} SentCountZero(logs: seq<AutomationLog>, automationId: string)
    requires forall l :: l in logs ==> !(l.automationId == automationId && l.status == Sent)
    ensures SentCount(logs, automationId) == 0
  {
    if logs != [] {
      assert logs[|logs| - 1] in logs;
      var init := logs[..|logs| - 1];
      assert forall l :: l in init ==> l in logs;
      SentCountZero(init, automationId);
    }
  }

  /** Storing an automation under an id no stored automation has, with
      `dmsSent` 0 and no 'sent' log for that id, keeps the invariant. */
  lemma PutFreshKeepsInv(st: DbState, a: Automation)
    requires Inv(st)
    requires forall x :: x in st.automations ==> x.id != a.id
    requires a.dmsSent == 0
    requires forall l :: l in st.logs ==> !(l.automationId == a.id && l.status == Sent)
    ensures Inv(st.(automations := Keyed.Put(st.automations, AutomationKey, a)))
  {
    Keyed.PutSpec(st.automations, AutomationKey, a, a.id);
    SentCountZero(st.logs, a.id);
  }

  /** Removing an automation keeps the invariant; its logs stay behind. */
  lemma RemoveKeepsInv(st: DbState, id: string)
    requires Inv(st)
    ensures Inv(st.(automations := Keyed.Remove(st.automations, AutomationKey, id)))
  {
    Keyed.RemoveSpec(st.automations, AutomationKey, id, id);
  }

  // ---------------------------------------------------------------------------
  // the store

  /** The module-level `users`, `automations` and `automationLogs` of
      src/lib/db.ts with the operations of its `db` object. */
  class Store {
    var users: seq<User>
    var automations: seq<Automation>
    var logs: seq<AutomationLog>

    function State(): DbState
      reads this
    {
      DbState(users, automations, logs)
    }

    ghost predicate Valid()
      reads this
    {
      ValidState(State())
    }

    /** Empty stores, as at module load. */
    constructor()
      ensures Valid() && Inv(State())
      ensures users == [] && automations == [] && logs == []
    {
      users := [];
      automations := [];
      logs := [];
    }

    /** `createUser`: stores the user under its id, replacing any user with
        that id. */
    method CreateUser(user: User) returns (r: User)
      requires Valid()
      modifies this
      ensures Valid()
      ensures r == user
      ensures users == Keyed.Put(old(users), UserKey, user)
      ensures automations == old(automations) && logs == old(logs)
    {
      Keyed.PutSpec(users, UserKey, user, user.id);
      users := Keyed.Put(users, UserKey, user);
      r := user;
    }

    /** `getUserById`. */
    method GetUserById(id: string) returns (r: Option<User>)
      ensures r == Keyed.Get(users, UserKey, id)
      ensures r.Some? ==> r.value in users && r.value.id == id
      ensures r.None? <==> forall u :: u in users ==> u.id != id
    {
      Keyed.FindSpec(users, UserKey, id);
      r := Keyed.Get(users, UserKey, id);
    }

    /** `getUserByInstagramId`: the first stored user, in insertion order, with
        that Instagram id. */
    method GetUserByInstagramId(instagramUserId: string) returns (r: Option<User>)
      ensures r == UserByInstagramId(users, instagramUserId)
    {
      var i := 0;
      while i < |users|
        invariant 0 <= i <= |users|
        invariant FirstWithInstagramIdFrom(users, instagramUserId, i) == FirstWithInstagramIdFrom(users, instagramUserId, 0)
      {
        var user := users[i];
        if user.instagramUserId == instagramUserId {
          return Some(user);
        }
        i := i + 1;
      }
      return None;
    }

    /** `updateUser`: an unknown id answers `None` and changes nothing; a known
        one has its user replaced in place by the patched user. */
    method UpdateUser(id: string, updates: UserPatch, now: int) returns (r: Option<User>)
      requires Valid()
      modifies this
      ensures Valid()
      ensures match Keyed.Get(old(users), UserKey, id)
              case None => r == None && users == old(users)
              case Some(u) => r == Some(PatchUser(u, updates, now)) && users == Keyed.Put(old(users), UserKey, r.value)
      ensures automations == old(automations) && logs == old(logs)
    {
      var user := Keyed.Get(users, UserKey, id);
      if user.None? {
        return None;
      }
      var updated := PatchUser(user.value, updates, now);
      Keyed.PutSpec(users, UserKey, updated, id);
      users := Keyed.Put(users, UserKey, updated);
      return Some(updated);
    }

    /** `createAutomation`: stores the automation under its id, replacing any
        automation with that id. */
    method CreateAutomation(automation: Automation) returns (r: Automation)
      requires Valid()
      modifies this
      ensures Valid()
      ensures r == automation
      ensures automations == Keyed.Put(old(automations), AutomationKey, automation)
      ensures users == old(users) && logs == old(logs)
    {
      Keyed.PutSpec(automations, AutomationKey, automation, automation.id);
      automations := Keyed.Put(automations, AutomationKey, automation);
      r := automation;
    }

    /** `getAutomationById`. */
    method GetAutomationById(id: string) returns (r: Option<Automation>)
      ensures r == Keyed.Get(automations, AutomationKey, id)
      ensures r.Some? ==> r.value in automations && r.value.id == id
      ensures r.None? <==> forall a :: a in automations ==> a.id != id
    {
      Keyed.FindSpec(automations, AutomationKey, id);
      r := Keyed.Get(automations, AutomationKey, id);
    }

    /** `getAutomationsByUserId`: the user's automations in insertion order. */
    method GetAutomationsByUserId(userId: string) returns (r: seq<Automation>)
      ensures r == OwnedBy(automations, userId)
      ensures forall a :: a in r <==> a in automations && a.userId == userId
    {
      r := [];
      var i := 0;
      while i < |automations|
        invariant 0 <= i <= |automations|
        invariant r == OwnedBy(automations[..i], userId)
      {
        var automation := automations[i];
        if automation.userId == userId {
          r := r + [automation];
        }
        assert automations[..i + 1][..i] == automations[..i];
        i := i + 1;
      }
      assert automations[..i] == automations;
    }

    /** `getActiveAutomationByMediaId`: the first automation, in insertion
        order, for that media with `isActive` set. */
    method GetActiveAutomationByMediaId(mediaId: string) returns (r: Option<Automation>)
      ensures r == ActiveForMedia(automations, mediaId)
    {
      var i := 0;
      while i < |automations|
        invariant 0 <= i <= |automations|
        invariant FirstActiveFrom(automations, mediaId, i) == FirstActiveFrom(automations, mediaId, 0)
      {
        var automation := automations[i];
        if automation.mediaId == mediaId && automation.isActive {
          return Some(automation);
        }
        i := i + 1;
      }
      return None;
    }

    /** `updateAutomation`: an unknown id answers `None` and changes nothing; a
        known one has its automation replaced in place by the patched one. */
    method UpdateAutomation(id: string, updates: AutomationPatch, now: int) returns (r: Option<Automation>)
      requires Valid()
      modifies this
      ensures Valid()
      ensures match Keyed.Get(old(automations), AutomationKey, id)
              case None => r == None && automations == old(automations)
              case Some(a) => r == Some(PatchAutomation(a, updates, now)) && automations == Keyed.Put(old(automations), AutomationKey, r.value)
      ensures users == old(users) && logs == old(logs)
    {
      var automation := Keyed.Get(automations, AutomationKey, id);
      if automation.None? {
        return None;
      }
      var updated := PatchAutomation(automation.value, updates, now);
      Keyed.PutSpec(automations, AutomationKey, updated, id);
      automations := Keyed.Put(automations, AutomationKey, updated);
      return Some(updated);
    }

    /** `deleteAutomation`: answers whether an automation had that id, removes
        it, and keeps every log, so logs outlive their automation. */
    method DeleteAutomation(id: string) returns (present: bool)
      requires Valid()
      modifies this
      ensures Valid()
      ensures present <==> exists a :: a in old(automations) && a.id == id
      ensures automations == Keyed.Remove(old(automations), AutomationKey, id)
      ensures users == old(users) && logs == old(logs)
    {
      Keyed.FindSpec(automations, AutomationKey, id);
      Keyed.RemoveSpec(automations, AutomationKey, id, id);
      present := Keyed.Find(automations, AutomationKey, id).Some?;
      automations := Keyed.Remove(automations, AutomationKey, id);
    }

    /** `createLog`: appends the log; earlier logs stay as they were. */
    method CreateLog(log: AutomationLog) returns (r: AutomationLog)
      requires Valid()
      modifies this
      ensures Valid()
      ensures r == log
      ensures logs == old(logs) + [log]
      ensures users == old(users) && automations == old(automations)
    {
      logs := logs + [log];
      r := log;
    }

    /** `hasUserReceivedDM`: some log records a DM sent for the pair. */
    method HasUserReceivedDM(automationId: string, commenterInstagramId: string) returns (r: bool)
      ensures r == HasSent(logs, automationId, commenterInstagramId)
      ensures r <==> exists l :: l in logs && SentTo(l, automationId, commenterInstagramId)
    {
      HasSentSpec(logs, automationId, commenterInstagramId);
      r := HasSent(logs, automationId, commenterInstagramId);
    }

    /** `getLogsByAutomationId`: the automation's logs in append order. */
    method GetLogsByAutomationId(automationId: string) returns (r: seq<AutomationLog>)
      ensures r == LogsFor(logs, automationId)
      ensures forall l :: l in r <==> l in logs && l.automationId == automationId
    {
      r := LogsFor(logs, automationId);
    }

    /** `incrementDmsSent`: the automation with that id counts one more DM. */
    method IncrementDmsSent(automationId: string)
      requires Valid()
      modifies this
      ensures Valid()
      ensures automations == IncrementDms(old(automations), automationId)
      ensures users == old(users) && logs == old(logs)
    {
      IncrementDmsSpec(automations, automationId);
      automations := IncrementDms(automations, automationId);
    }
  }
}
