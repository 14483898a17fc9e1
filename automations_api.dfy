/** The automations route of src/app/api/automations/route.ts: listing the
    signed-in user's automations, and creating one after a chain of guards.
    The session is the signed-in user's id, `None` without a session. */
module AutomationsApi {
  import opened Types
  import opened Http
  import opened Db
  import Keyed
  import Utils

  /** The JSON body of a create request; `None` fields are absent. */
  datatype CreateBody = CreateBody(
    mediaId: Option<string>,
    mediaThumbnail: Option<string>,
    mediaCaption: Option<string>,
    keyword: Option<string>,
    dmMessage: Option<string>,
    replyOncePerUser: Option<bool>)

  const MaxKeywordLength := 50
  const MaxDmMessageLength := 1000

  const NotAuthenticated := Response(401, Error("Not authenticated"))
  const MissingFields := Response(400, Error("Missing required fields: mediaId, keyword, dmMessage"))
  const KeywordTooLong := Response(400, Error("Keyword must be 50 characters or less"))
  const DmMessageTooLong := Response(400, Error("DM message must be 1000 characters or less"))
  const AlreadyExists := Response(409, Error("An automation already exists for this post. Please edit or delete it first."))
  const CreateFailed := Response(500, Error("Failed to create automation"))

  /** A JavaScript string value that is falsy: absent or "". */
  predicate Blank(s: Option<string>) {
    s.None? || s.value == ""
  }

  datatype Decision = Reject(response: Response) | Accept(automation: Automation)

  /** The guard chain of `POST` and the automation it would store, given the
      stored automations, the session, the parsed body and the fresh id and
      time. The body is `None` when it is not JSON or is `null`, the two cases
      in which reading or destructuring it throws; any other JSON value that is
      not an object destructures to absent fields. */
  function CreateDecision(automations: seq<Automation>, session: Option<string>, body: Option<CreateBody>,
                          id: string, now: int): (d: Decision)
    ensures d.Reject? ==> d.response.status >= 400 && d.response.body.Error?
    ensures d.Accept? ==> session.Some? && d.automation.userId == session.value && d.automation.id == id
    ensures d.Accept? ==> d.automation.isActive && d.automation.dmsSent == 0
    ensures d.Accept? ==> |d.automation.keyword| <= MaxKeywordLength && |d.automation.dmMessage| <= MaxDmMessageLength
  {
    if session.None? then Reject(NotAuthenticated)
    else if body.None? then Reject(CreateFailed)
    else
      var b := body.value;
      if Blank(b.mediaId) || Blank(b.keyword) || Blank(b.dmMessage) then Reject(MissingFields)
      else if |b.keyword.value| > MaxKeywordLength then Reject(KeywordTooLong)
      else if |b.dmMessage.value| > MaxDmMessageLength then Reject(DmMessageTooLong)
      else
        var existing := ActiveForMedia(automations, b.mediaId.value);
        if existing.Some? && existing.value.userId == session.value then Reject(AlreadyExists)
        else
          Accept(Automation(
            id, session.value, b.mediaId.value, None, b.mediaThumbnail, b.mediaCaption,
            Utils.Trim(b.keyword.value), Utils.Trim(b.dmMessage.value),
            b.replyOncePerUser.GetOr(true), true, 0, now, now))
  }

  // ---------------------------------------------------------------------------
  // the handlers

  /** `POST`: answers what `CreateDecision` decides, and stores the accepted
      automation and nothing else. */
  method PostAutomation(store: Store, session: Option<string>, body: Option<CreateBody>, id: string, now: int)
    returns (resp: Response)
    requires store.Valid()
    modifies store
    ensures store.Valid()
    ensures match CreateDecision(old(store.automations), session, body, id, now)
            case Reject(r) => resp == r && store.State() == old(store.State())
            case Accept(a) =>
              && resp == Response(201, SavedAutomation(a))
              && store.automations == Keyed.Put(old(store.automations), AutomationKey, a)
              && store.users == old(store.users) && store.logs == old(store.logs)
  {
    if session.None? {
      return NotAuthenticated;
    }
    if body.None? {
      return CreateFailed;
    }
    var b := body.value;
    if Blank(b.mediaId) || Blank(b.keyword) || Blank(b.dmMessage) {
      return MissingFields;
    }
    var mediaId, keyword, dmMessage := b.mediaId.value, b.keyword.value, b.dmMessage.value;
    if |keyword| > MaxKeywordLength {
      return KeywordTooLong;
    }
    if |dmMessage| > MaxDmMessageLength {
      return DmMessageTooLong;
    }
    var existing := store.GetActiveAutomationByMediaId(mediaId);
    if existing.Some? && existing.value.userId == session.value {
      return AlreadyExists;
    }
    var automation := Automation(
      id, session.value, mediaId, None, b.mediaThumbnail, b.mediaCaption,
      Utils.Trim(keyword), Utils.Trim(dmMessage), b.replyOncePerUser.GetOr(true), true, 0, now, now);
    var _ := store.CreateAutomation(automation);
    return Response(201, SavedAutomation(automation));
  }

  /** `GET`: without a session 401; otherwise exactly the session user's
      automations, in insertion order. */
  method ListAutomations(store: Store, session: Option<string>) returns (resp: Response)
    ensures session.None? ==> resp == NotAuthenticated
    ensures session.Some? ==> resp == Response(200, AutomationList(OwnedBy(store.automations, session.value)))
    ensures session.Some? ==>
              forall a :: a in resp.body.automations <==> a in store.automations && a.userId == session.value
  {
    if session.None? {
      return NotAuthenticated;
    }
    var automations := store.GetAutomationsByUserId(session.value);
    return Response(200, AutomationList(automations));
  }

  // ---------------------------------------------------------------------------
  // properties of the guard chain

  /** Every rejection is an error response with status 400 or more, and the
      guards fire in order: session, body, required fields, keyword length,
      message length. */
  lemma GuardOrder(automations: seq<Automation>, session: Option<string>, body: Option<CreateBody>, id: string, now: int)
    ensures var d := CreateDecision(automations, session, body, id, now);
      && (d.Reject? ==> d.response.status >= 400 && d.response.body.Error?)
      && (session.None? ==> d == Reject(NotAuthenticated))
      && (session.Some? && body.None? ==> d == Reject(CreateFailed))
      && (session.Some? && body.Some? ==>
            var b := body.value;
            && (Blank(b.mediaId) || Blank(b.keyword) || Blank(b.dmMessage) <==> d == Reject(MissingFields))
            && (!Blank(b.mediaId) && !Blank(b.keyword) && !Blank(b.dmMessage) ==>
                  && (|b.keyword.value| > MaxKeywordLength ==> d == Reject(KeywordTooLong))
                  && (|b.keyword.value| <= MaxKeywordLength && |b.dmMessage.value| > MaxDmMessageLength ==>
                        d == Reject(DmMessageTooLong))))
  {
  }

  /** The request passes every guard before the conflict check. */
  ghost predicate PassesValidation(session: Option<string>, body: Option<CreateBody>) {
    && session.Some? && body.Some?
    && !Blank(body.value.mediaId) && !Blank(body.value.keyword) && !Blank(body.value.dmMessage)
    && |body.value.keyword.value| <= MaxKeywordLength
    && |body.value.dmMessage.value| <= MaxDmMessageLength
  }

  /** A valid request is refused with 409 exactly when the first active
      automation for its media belongs to the session user, and is accepted
      otherwise. */
  lemma ConflictOnlyForSameUser(automations: seq<Automation>, session: Option<string>, body: Option<CreateBody>, id: string, now: int)
    requires PassesValidation(session, body)
    ensures var existing := ActiveForMedia(automations, body.value.mediaId.value);
            var d := CreateDecision(automations, session, body, id, now);
            && (d == Reject(AlreadyExists) <==> existing.Some? && existing.value.userId == session.value)
            && (d.Reject? <==> d == Reject(AlreadyExists))
  {
  }

  /** Another user's active automation for the media does not block creation;
      neither does the session user's own one when another user's active
      automation for the media was stored before it, since only the first is
      looked at. */
  lemma OtherOwnersNeverBlock(automations: seq<Automation>, session: Option<string>, body: Option<CreateBody>, id: string, now: int)
    requires PassesValidation(session, body)
    requires exists k :: 0 <= k < |automations| && ActiveFor(automations[k], body.value.mediaId.value) &&
               automations[k].userId != session.value &&
               forall j :: 0 <= j < k ==> !ActiveFor(automations[j], body.value.mediaId.value)
    ensures CreateDecision(automations, session, body, id, now).Accept?
  {
    var m := body.value.mediaId.value;
    ActiveForMediaSpec(automations, m);
    var k :| 0 <= k < |automations| && ActiveFor(automations[k], m) && automations[k].userId != session.value &&
             forall j :: 0 <= j < k ==> !ActiveFor(automations[j], m);
    var k' :| 0 <= k' < |automations| && automations[k'] == ActiveForMedia(automations, m).value &&
              ActiveFor(automations[k'], m) && forall j :: 0 <= j < k' ==> !ActiveFor(automations[j], m);
    assert k' == k;
  }

  /** An accepted automation belongs to the session user, is active, has sent
      nothing, stores the trimmed keyword and message (so within the limits),
      replies once per user unless the body says otherwise, and carries the
      given id and time. */
  lemma AcceptedAutomation(automations: seq<Automation>, session: Option<string>, body: Option<CreateBody>, id: string, now: int)
    requires CreateDecision(automations, session, body, id, now).Accept?
    ensures var a := CreateDecision(automations, session, body, id, now).automation;
            var b := body.value;
      && PassesValidation(session, body)
      && a.id == id && a.userId == session.value && a.mediaId == b.mediaId.value
      && a.isActive && a.dmsSent == 0 && a.createdAt == now && a.updatedAt == now
      && a.keyword == Utils.Trim(b.keyword.value) && a.dmMessage == Utils.Trim(b.dmMessage.value)
      && |a.keyword| <= MaxKeywordLength && |a.dmMessage| <= MaxDmMessageLength
      && a.replyOncePerUser == (b.replyOncePerUser != Some(false))
      && a.mediaUrl == None && a.mediaThumbnail == b.mediaThumbnail && a.mediaCaption == b.mediaCaption
  {
  }

  /** With an id no stored automation has, an accepted request adds exactly
      one automation, at the end. */
  lemma AcceptAppends(automations: seq<Automation>, session: Option<string>, body: Option<CreateBody>, id: string, now: int)
    requires CreateDecision(automations, session, body, id, now).Accept?
    requires forall a :: a in automations ==> a.id != id
    ensures Keyed.Put(automations, AutomationKey, CreateDecision(automations, session, body, id, now).automation) ==
              automations + [CreateDecision(automations, session, body, id, now).automation]
  {
    Keyed.FindSpec(automations, AutomationKey, id);
  }

  /** An accepted automation stored under a fresh id, with no 'sent' log left
      behind for that id, keeps ids unique and every counter equal to its
      'sent' logs, so the webhook starts from a state where the counters are
      in step. */
  lemma AcceptKeepsInv(st: DbState, session: Option<string>, body: Option<CreateBody>, id: string, now: int)
    requires Inv(st)
    requires CreateDecision(st.automations, session, body, id, now).Accept?
    requires forall x :: x in st.automations ==> x.id != id
    requires forall l :: l in st.logs ==> !(l.automationId == id && l.status == Sent)
    ensures Inv(st.(automations := Keyed.Put(st.automations, AutomationKey,
                                             CreateDecision(st.automations, session, body, id, now).automation)))
  {
    PutFreshKeepsInv(st, CreateDecision(st.automations, session, body, id, now).automation);
  }

  /** A JSON body that is not an object (a string, a number, an array) has
      none of the fields, so a signed-in request with it gets the
      missing-fields 400. */
  lemma NonObjectBodyMissingFields(automations: seq<Automation>, userId: string, id: string, now: int)
    ensures CreateDecision(automations, Some(userId), Some(CreateBody(None, None, None, None, None, None)), id, now)
              == Reject(MissingFields)
  {
  }

  /** A keyword of whitespace only passes the guards (it is not ""), is stored
      as "", and then matches exactly the empty and all-whitespace comments. */
  lemma BlankKeywordStoredEmpty(automations: seq<Automation>, session: Option<string>, body: Option<CreateBody>, id: string, now: int, text: string)
    requires CreateDecision(automations, session, body, id, now).Accept?
    requires Utils.AllSpace(body.value.keyword.value)
    ensures CreateDecision(automations, session, body, id, now).automation.keyword == ""
    ensures Utils.ContainsKeyword(text, CreateDecision(automations, session, body, id, now).automation.keyword) <==> Utils.AllSpace(text)
  {
    var k := body.value.keyword.value;
    Utils.TrimEmptyIffAllSpace(k);
    Utils.BlankKeywordMatchesOnlyBlankText(text, Utils.Trim(k));
  }
}
