/** The Instagram webhook of src/app/api/webhook/instagram/route.ts: the GET
    verification handshake and the POST handler that turns comment
    notifications into DMs, skips and delivery logs. */
module Webhook {
  import opened Types
  import opened Http
  import opened Db
  import Keyed
  import Utils

  // ---------------------------------------------------------------------------
  // GET: the verification handshake

  /** `mode`, `token` and `challenge` are the `hub.*` query parameters (`None`
      when absent) and `secret` is the configured verify token (`None` when the
      variable is unset). An absent token never equals an unset secret, since
      `null !== undefined`. */
  function Handshake(mode: Option<string>, token: Option<string>, challenge: Option<string>, secret: Option<string>): (r: Response)
    ensures r.status == 200 <==> mode == Some("subscribe") && secret.Some? && token == secret
    ensures r.status == 200 ==> r.body == Text(challenge.GetOr(""))
    ensures r.status != 200 ==> r == Response(403, Text("Forbidden"))
  {
    if mode == Some("subscribe") && secret.Some? && token == secret then
      Response(200, Text(challenge.GetOr("")))
    else
      Response(403, Text("Forbidden"))
  }

  // ---------------------------------------------------------------------------
  // the environment of POST

  /** What `sendInstagramDM` is called with. */
  datatype DmRequest = DmRequest(senderInstagramId: string, recipientId: string, message: string, accessToken: string)

  /** What a failed send throws: an `Error` with its message, or any other value. */
  datatype Thrown = ErrorInstance(message: string) | OtherValue

  datatype SendResult = SendOk | SendThrew(thrown: Thrown)

  /** The `generateId()` and `Date.now()` of one new log. */
  datatype Stamp = Stamp(id: string, now: int)

  /** The outside world of a POST. `send(n, request)` is the outcome of the DM
      send made when `n` logs exist, and `stamp(n)` the id and time given to the
      log created when `n` logs exist; the logs only grow, so every send and every
      log of a batch has its own `n`. */
  datatype Env = Env(send: (nat, DmRequest) -> SendResult, stamp: nat -> Stamp)

  /** `error instanceof Error ? error.message : 'Unknown error'`. */
  function ErrorText(e: Thrown): (r: string)
    ensures e.ErrorInstance? ==> r == e.message
    ensures e.OtherValue? ==> r == "Unknown error"
  {
    match e
    case ErrorInstance(message) => message
    case OtherValue => "Unknown error"
  }

  // ---------------------------------------------------------------------------
  // POST: one change

  /** How the handler left one change. `Aborted` is an exception thrown outside
      the send's try block (a missing `value`, `from`, `media`, or a missing
      `text` that reaches `containsKeyword`); it ends the whole batch. */
  datatype Outcome =
    | NotComment     // `field` is not "comments"
    | NoRule         // no active automation for the media
    | NoKeyword      // the comment lacks the keyword
    | Deduplicated   // reply-once, and a DM was sent before: 'skipped' log
    | NoOwner        // the automation's user is missing
    | DmSent         // the send returned: 'sent' log and one more DM counted
    | DmFailed(message: string)  // the send threw: 'failed' log with the message
    | Aborted
  {
    predicate WritesLog() {
      Deduplicated? || DmSent? || DmFailed?
    }

    function LogStatusOf(): LogStatus
      requires WritesLog()
    {
      if Deduplicated? then Skipped else if DmSent? then Sent else Failed
    }
  }

  datatype Step = Step(state: DbState, outcome: Outcome)

  /** The log `createLog` receives for a comment by `commenterId`. */
  function NewLog(stamp: Stamp, automationId: string, commenterId: string, username: Option<string>,
                  text: string, status: LogStatus, errorMessage: Option<string>): (log: AutomationLog)
    ensures log.id == stamp.id && log.createdAt == stamp.now
    ensures log.automationId == automationId && log.commenterInstagramId == commenterId
    ensures log.commenterUsername == username && log.commentText == text
    ensures log.status == status && log.errorMessage == errorMessage
  {
    AutomationLog(stamp.id, automationId, commenterId, username, text, status, errorMessage, stamp.now)
  }

  /** The body of the inner loop for one change, on the stores `st`. */
  function ProcessChange(st: DbState, c: Change, env: Env): (r: Step)
    ensures r.state.users == st.users
    ensures !r.outcome.WritesLog() && r.outcome != DmSent ==> r.state == st
  {
    if c.field != "comments" then Step(st, NotComment)
    else if c.value.None? || c.value.value.from.None? || c.value.value.media.None? then Step(st, Aborted)
    else
      var v := c.value.value;
      match ActiveForMedia(st.automations, v.media.value.id)
      case None => Step(st, NoRule)
      case Some(a) =>
        if v.text.None? then Step(st, Aborted)
        else if !Utils.ContainsKeyword(v.text.value, a.keyword) then Step(st, NoKeyword)
        else Reply(st, a, v.from.value, v.text.value, env)
  }

  /** The rest of the loop body once the comment `text` by `from` has matched
      the automation `a`: the reply-once check and the owner lookup. */
  function Reply(st: DbState, a: Automation, from: Commenter, text: string, env: Env): (r: Step)
    ensures r.outcome == Deduplicated || r.outcome == NoOwner || r.outcome.DmSent? || r.outcome.DmFailed?
    ensures r.state.users == st.users
    ensures r.outcome == NoOwner ==> r.state == st
  {
    if a.replyOncePerUser && HasSent(st.logs, a.id, from.id) then
      var log := NewLog(env.stamp(|st.logs|), a.id, from.id, from.username, text, Skipped, None);
      Step(st.(logs := st.logs + [log]), Deduplicated)
    else
      match Keyed.Get(st.users, UserKey, a.userId)
      case None => Step(st, NoOwner)
      case Some(u) => Deliver(st, a, u, from, text, env)
  }

  /** The DM request for automation `a` of owner `u` to the commenter. */
  function RequestFor(a: Automation, u: User, commenterId: string): (r: DmRequest)
    ensures r.senderInstagramId == u.instagramUserId && r.accessToken == u.accessToken
    ensures r.recipientId == commenterId && r.message == a.dmMessage
  {
    DmRequest(u.instagramUserId, commenterId, a.dmMessage, u.accessToken)
  }

  /** The try block around the send and its catch. */
  function Deliver(st: DbState, a: Automation, u: User, from: Commenter, text: string, env: Env): (r: Step)
    ensures r.outcome.DmSent? || r.outcome.DmFailed?
    ensures r.state.users == st.users
    ensures |r.state.logs| == |st.logs| + 1 && r.state.logs[..|st.logs|] == st.logs
  {
    match env.send(|st.logs|, RequestFor(a, u, from.id))
    case SendOk =>
      var log := NewLog(env.stamp(|st.logs|), a.id, from.id, from.username, text, Sent, None);
      Step(DbState(st.users, IncrementDms(st.automations, a.id), st.logs + [log]), DmSent)
    case SendThrew(e) =>
      var log := NewLog(env.stamp(|st.logs|), a.id, from.id, from.username, text, Failed, Some(ErrorText(e)));
      Step(st.(logs := st.logs + [log]), DmFailed(ErrorText(e)))
  }

  // ---------------------------------------------------------------------------
  // POST: the batch

  /** The stores after a run, the outcome of every change handled, and whether
      an exception ended the run. */
  datatype Run = Run(state: DbState, outcomes: seq<Outcome>, aborted: bool)

  /** The inner loop over one entry's changes. */
  function ChangesRun(st: DbState, cs: seq<Change>, env: Env): (r: Run)
    ensures |r.outcomes| <= |cs|
    ensures !r.aborted ==> |r.outcomes| == |cs| && Aborted !in r.outcomes
    ensures r.aborted <==> |r.outcomes| > 0 && r.outcomes[|r.outcomes| - 1] == Aborted
    ensures forall k :: 0 <= k < |r.outcomes| - 1 ==> r.outcomes[k] != Aborted
    decreases |cs|
  {
    if cs == [] then Run(st, [], false)
    else
      var step := ProcessChange(st, cs[0], env);
      if step.outcome == Aborted then Run(step.state, [Aborted], true)
      else
        var rest := ChangesRun(step.state, cs[1..], env);
        var os := [step.outcome] + rest.outcomes;
        assert os[1..] == rest.outcomes;
        Run(rest.state, os, rest.aborted)
  }

  /** The changes of the entries, entry after entry, in order; an entry
      without `changes` contributes none. */
  function AllChanges(es: seq<Entry>): seq<Change>
    decreases |es|
  {
    if es == [] then []
    else (if es[0].changes.Some? then es[0].changes.value else []) + AllChanges(es[1..])
  }

  /** The outer loop over the entries; a missing `changes` throws. */
  function EntriesRun(st: DbState, es: seq<Entry>, env: Env): (r: Run)
    ensures !r.aborted ==> Aborted !in r.outcomes
    ensures !r.aborted ==> |r.outcomes| == |AllChanges(es)|
    decreases |es|
  {
    if es == [] then Run(st, [], false)
    else if es[0].changes.None? then Run(st, [], true)
    else
      var first := ChangesRun(st, es[0].changes.value, env);
      if first.aborted then first
      else
        var rest := EntriesRun(first.state, es[1..], env);
        Run(rest.state, first.outcomes + rest.outcomes, rest.aborted)
  }

  /** The whole POST on the stores `st`; `body` is `None` when the request body
      is not JSON or is `null`, where reading `object` throws. Any other JSON
      value that is not an object has no `object` property and is modelled as a
      payload whose `objectKind` is not "instagram": it is acknowledged
      untouched by the `object` check. A payload without `entry` throws in the
      outer loop. */
  function Post(st: DbState, body: Option<WebhookPayload>, env: Env): (r: Run)
    ensures !r.aborted ==> Aborted !in r.outcomes
    ensures body.None? ==> r.aborted && r.state == st
    ensures body.Some? && body.value.objectKind == "instagram" && body.value.entry.None? ==>
              r.aborted && r.state == st && r.outcomes == []
  {
    match body
    case None => Run(st, [], true)
    case Some(p) =>
      if p.objectKind != "instagram" then Run(st, [], false)
      else if p.entry.None? then Run(st, [], true)
      else EntriesRun(st, p.entry.value, env)
  }

  /** Where the stores end up once the inner loop has produced `r` and the
      entries `es` are still to come. */
  ghost function ThenEntries(r: Run, es: seq<Entry>, env: Env): DbState {
    if r.aborted then r.state else EntriesRun(r.state, es, env).state
  }

  // ---------------------------------------------------------------------------
  // POST: the handler

  /** One pass of the inner loop: `continue` is a return, and an exception
      outside the send's try block is the `Aborted` outcome. */
  method HandleChange(store: Store, change: Change, env: Env) returns (outcome: Outcome)
    requires store.Valid()
    modifies store
    ensures store.Valid()
    ensures Step(store.State(), outcome) == ProcessChange(old(store.State()), change, env)
  {
    if change.field != "comments" {
      return NotComment;
    }
    if change.value.None? || change.value.value.from.None? || change.value.value.media.None? {
      return Aborted;
    }
    var value := change.value.value;
    var commenterId := value.from.value.id;
    var commenterUsername := value.from.value.username;
    var mediaId := value.media.value.id;

    var automation := store.GetActiveAutomationByMediaId(mediaId);
    if automation.None? {
      return NoRule;
    }
    var rule := automation.value;
    if value.text.None? {
      return Aborted;
    }
    var commentText := value.text.value;
    if !Utils.ContainsKeyword(commentText, rule.keyword) {
      return NoKeyword;
    }

    if rule.replyOncePerUser {
      var alreadySent := store.HasUserReceivedDM(rule.id, commenterId);
      if alreadySent {
        var log := NewLog(env.stamp(|store.logs|), rule.id, commenterId, commenterUsername, commentText, Skipped, None);
        var _ := store.CreateLog(log);
        return Deduplicated;
      }
    }

    var user := store.GetUserById(rule.userId);
    if user.None? {
      return NoOwner;
    }
    var owner := user.value;

    var result := env.send(|store.logs|, RequestFor(rule, owner, commenterId));
    match result
    case SendOk =>
      var log := NewLog(env.stamp(|store.logs|), rule.id, commenterId, commenterUsername, commentText, Sent, None);
      var _ := store.CreateLog(log);
      store.IncrementDmsSent(rule.id);
      return DmSent;
    case SendThrew(error) =>
      var message := ErrorText(error);
      var log := NewLog(env.stamp(|store.logs|), rule.id, commenterId, commenterUsername, commentText, Failed, Some(message));
      var _ := store.CreateLog(log);
      return DmFailed(message);
  }

  /** `POST`: always acknowledges, and leaves the stores as `Post` says. */
  method HandlePost(store: Store, body: Option<WebhookPayload>, env: Env) returns (resp: Response)
    requires store.Valid()
    modifies store
    ensures store.Valid()
    ensures resp == Ack
    ensures store.State() == Post(old(store.State()), body, env).state
  {
    if body.None? {
      return Ack;
    }
    var payload := body.value;
    if payload.objectKind != "instagram" {
      return Ack;
    }
    if payload.entry.None? {
      return Ack;
    }
    var entries := payload.entry.value;
    ghost var target := Post(store.State(), body, env).state;
    var k := 0;
    while k < |entries|
      invariant 0 <= k <= |entries|
      invariant store.Valid()
      invariant EntriesRun(store.State(), entries[k..], env).state == target
    {
      var entry := entries[k];
      assert entries[k..][1..] == entries[k + 1..];
      if entry.changes.None? {
        return Ack;
      }
      var changes := entry.changes.value;
      var i := 0;
      assert changes[i..] == changes;
      while i < |changes|
        invariant 0 <= i <= |changes|
        invariant store.Valid()
        invariant ThenEntries(ChangesRun(store.State(), changes[i..], env), entries[k + 1..], env) == target
      {
        var change := changes[i];
        assert changes[i..][1..] == changes[i + 1..];
        var outcome := HandleChange(store, change, env);
        if outcome == Aborted {
          return Ack;
        }
        i := i + 1;
      }
      k := k + 1;
    }
    return Ack;
  }

  // ---------------------------------------------------------------------------
  // properties of one change

  /** The comment fields the handler dereferences are all present. */
  predicate WellFormed(c: Change) {
    c.field != "comments" ||
    (c.value.Some? && c.value.value.from.Some? && c.value.value.media.Some? && c.value.value.text.Some?)
  }

  /** The active automation for a well-formed comment's media, when the
      comment contains its keyword. */
  function MatchedRule(st: DbState, c: Change): (r: Option<Automation>)
    ensures r.Some? ==> c.field == "comments" && WellFormed(c)
  {
    if c.field != "comments" || !WellFormed(c) then None
    else
      match ActiveForMedia(st.automations, c.value.value.media.value.id)
      case None => None
      case Some(a) => if Utils.ContainsKeyword(c.value.value.text.value, a.keyword) then Some(a) else None
  }

  /** The `from` of a well-formed comment. */
  function FromOf(c: Change): Commenter
    requires c.field == "comments" && WellFormed(c)
  {
    c.value.value.from.value
  }

  /** The commenter's id of a well-formed comment. */
  function CommenterOf(c: Change): string
    requires c.field == "comments" && WellFormed(c)
  {
    FromOf(c).id
  }

  /** The text of a well-formed comment. */
  function TextOf(c: Change): string
    requires c.field == "comments" && WellFormed(c)
  {
    c.value.value.text.value
  }

  /** `st'` is `st` with one log appended, stamped with `stamp`, for
      automation `automationId` and the comment `text` by `from`, with the
      status and error message of `o`. */
  ghost predicate LogAppended(st: DbState, st': DbState, stamp: Stamp, automationId: string, from: Commenter,
                              text: string, o: Outcome)
    requires o.WritesLog()
  {
    && |st'.logs| == |st.logs| + 1 && st'.logs[..|st.logs|] == st.logs
    && var log := st'.logs[|st.logs|];
       && log.id == stamp.id && log.createdAt == stamp.now
       && log.automationId == automationId
       && log.commenterInstagramId == from.id && log.commenterUsername == from.username
       && log.commentText == text
       && log.status == o.LogStatusOf()
       && log.errorMessage == (if o.DmFailed? then Some(o.message) else None)
  }

  /** What a step for automation `automationId` and the comment `text` by
      `from` does: users never change; exactly the skipped, sent and failed
      outcomes append one log, stamped with `stamp` and recording the comment;
      only a sent DM changes an automation, by counting it. */
  ghost predicate StepEffects(st: DbState, step: Step, stamp: Stamp, automationId: string, from: Commenter, text: string) {
    && step.state.users == st.users
    && (step.outcome.WritesLog() ==> LogAppended(st, step.state, stamp, automationId, from, text, step.outcome))
    && (!step.outcome.WritesLog() ==> step.state.logs == st.logs)
    && (step.outcome == DmSent ==> step.state.automations == IncrementDms(st.automations, automationId))
    && (step.outcome != DmSent ==> step.state.automations == st.automations)
  }

  lemma DeliverEffects(st: DbState, a: Automation, u: User, from: Commenter, text: string, env: Env)
    ensures Deliver(st, a, u, from, text, env).outcome.DmSent? || Deliver(st, a, u, from, text, env).outcome.DmFailed?
    ensures StepEffects(st, Deliver(st, a, u, from, text, env), env.stamp(|st.logs|), a.id, from, text)
  {
    var step := Deliver(st, a, u, from, text, env);
    assert step.state.logs[..|st.logs|] == st.logs;
  }

  /** Once a rule matched, the outcome is decided by the reply-once check and
      the owner lookup: a repeat is skipped, a missing owner gets nothing, and
      every other comment reaches the send. */
  lemma ReplyEffects(st: DbState, a: Automation, from: Commenter, text: string, env: Env)
    ensures var o := Reply(st, a, from, text, env).outcome;
            var repeat := a.replyOncePerUser && HasSent(st.logs, a.id, from.id);
            && (o == Deduplicated <==> repeat)
            && (o == NoOwner <==> !repeat && Keyed.Get(st.users, UserKey, a.userId).None?)
            && (o.DmSent? || o.DmFailed? <==> !repeat && Keyed.Get(st.users, UserKey, a.userId).Some?)
    ensures StepEffects(st, Reply(st, a, from, text, env), env.stamp(|st.logs|), a.id, from, text)
  {
    var step := Reply(st, a, from, text, env);
    if a.replyOncePerUser && HasSent(st.logs, a.id, from.id) {
      assert step.state.logs[..|st.logs|] == st.logs;
    } else if Keyed.Get(st.users, UserKey, a.userId).Some? {
      DeliverEffects(st, a, Keyed.Get(st.users, UserKey, a.userId).value, from, text, env);
    }
  }

  /** What one change does to the stores: a change that matches no rule
      (including an aborting one) changes nothing and writes no log; one that
      matches a rule has the effects of `StepEffects` for that rule and its
      commenter. */
  lemma ProcessChangeEffects(st: DbState, c: Change, env: Env)
    ensures var step := ProcessChange(st, c, env);
      && (MatchedRule(st, c).None? ==> step.state == st && !step.outcome.WritesLog() && step.outcome != DmSent)
      && (MatchedRule(st, c).Some? ==>
            && step.outcome != Aborted
            && StepEffects(st, step, env.stamp(|st.logs|), MatchedRule(st, c).value.id, FromOf(c), TextOf(c)))
  {
    var m := MatchedRule(st, c);
    if m.Some? {
      var v := c.value.value;
      assert ProcessChange(st, c, env) == Reply(st, m.value, v.from.value, v.text.value, env);
      ReplyEffects(st, m.value, v.from.value, v.text.value, env);
    }
  }

  /** A change is skipped as a repeat exactly when its rule replies once per
      user and a 'sent' log already exists for the commenter; the send is then
      not made, so the outcome of the send has no bearing on the result. */
  lemma DedupSkipsSend(st: DbState, c: Change, env: Env, env': Env)
    requires env'.stamp == env.stamp
    ensures ProcessChange(st, c, env).outcome == Deduplicated <==>
              MatchedRule(st, c).Some? && MatchedRule(st, c).value.replyOncePerUser &&
              HasSent(st.logs, MatchedRule(st, c).value.id, CommenterOf(c))
    ensures ProcessChange(st, c, env).outcome == Deduplicated ==> ProcessChange(st, c, env') == ProcessChange(st, c, env)
    ensures ProcessChange(st, c, env).outcome == Deduplicated ==>
              && MatchedRule(st, c).Some?
              && StepEffects(st, ProcessChange(st, c, env), env.stamp(|st.logs|), MatchedRule(st, c).value.id,
                             FromOf(c), TextOf(c))
  {
    ProcessChangeEffects(st, c, env);
    var m := MatchedRule(st, c);
    if m.Some? {
      var v := c.value.value;
      assert ProcessChange(st, c, env) == Reply(st, m.value, v.from.value, v.text.value, env);
      assert ProcessChange(st, c, env') == Reply(st, m.value, v.from.value, v.text.value, env');
    }
  }

  /** The outcome of a change that matched a rule: skipped as a repeat exactly
      when reply-once is on and a 'sent' log exists for the commenter; otherwise
      nothing when the owner is missing, and else exactly what the send oracle
      answers, so a first comment under the default reply-once reaches the send. */
  lemma MatchedOutcome(st: DbState, c: Change, env: Env)
    requires MatchedRule(st, c).Some?
    ensures var a := MatchedRule(st, c).value;
            var o := ProcessChange(st, c, env).outcome;
            var repeat := a.replyOncePerUser && HasSent(st.logs, a.id, CommenterOf(c));
            var owner := Keyed.Get(st.users, UserKey, a.userId);
            && (o == Deduplicated <==> repeat)
            && (o == NoOwner <==> !repeat && owner.None?)
            && (!repeat && owner.Some? ==>
                  match env.send(|st.logs|, RequestFor(a, owner.value, CommenterOf(c)))
                  case SendOk => o == DmSent
                  case SendThrew(e) => o == DmFailed(ErrorText(e)))
  {
    var a := MatchedRule(st, c).value;
    var v := c.value.value;
    assert ProcessChange(st, c, env) == Reply(st, a, v.from.value, v.text.value, env);
    ReplyEffects(st, a, v.from.value, v.text.value, env);
  }

  /** Without reply-once, a matching comment whose rule's owner exists always
      gets a send attempt, and the outcome is exactly what the send returned. */
  lemma NoDedupWithoutReplyOnce(st: DbState, c: Change, env: Env)
    requires MatchedRule(st, c).Some? && !MatchedRule(st, c).value.replyOncePerUser
    requires Keyed.Get(st.users, UserKey, MatchedRule(st, c).value.userId).Some?
    ensures var a := MatchedRule(st, c).value;
            var u := Keyed.Get(st.users, UserKey, a.userId).value;
            match env.send(|st.logs|, RequestFor(a, u, CommenterOf(c)))
            case SendOk => ProcessChange(st, c, env).outcome == DmSent
            case SendThrew(e) => ProcessChange(st, c, env).outcome == DmFailed(ErrorText(e))
  {
    var a := MatchedRule(st, c).value;
    var v := c.value.value;
    assert ProcessChange(st, c, env) == Reply(st, a, v.from.value, v.text.value, env);
  }

  /** A change throws exactly when it is a comment whose `value`, `from` or
      `media` is missing, or whose `text` is missing once an active automation
      exists for its media: those are the only fields dereferenced unguarded. */
  lemma AbortsExactly(st: DbState, c: Change, env: Env)
    ensures ProcessChange(st, c, env).outcome == Aborted <==>
              c.field == "comments" &&
              (c.value.None? || c.value.value.from.None? || c.value.value.media.None? ||
               (ActiveForMedia(st.automations, c.value.value.media.value.id).Some? && c.value.value.text.None?))
  {
  }

  /** A well-formed change never aborts the batch. */
  lemma WellFormedNeverAborts(st: DbState, c: Change, env: Env)
    requires WellFormed(c)
    ensures ProcessChange(st, c, env).outcome != Aborted
  {
    ProcessChangeEffects(st, c, env);
  }

  // ---------------------------------------------------------------------------
  // the DM counter

  /** Appending one log keeps the counters in step with the 'sent' logs when
      a 'sent' log comes with one more count for its automation and any other
      log with no count. */
  lemma AppendLogKeepsInv(st: DbState, st': DbState, log: AutomationLog)
    requires Inv(st)
    requires st'.users == st.users && st'.logs == st.logs + [log]
    requires log.status == Sent ==> st'.automations == IncrementDms(st.automations, log.automationId)
    requires log.status != Sent ==> st'.automations == st.automations
    ensures Inv(st')
  {
    forall id: string
      ensures SentCount(st'.logs, id) == SentCount(st.logs, id) + (if log.automationId == id && log.status == Sent then 1 else 0)
    {
      SentCountAppend(st.logs, log, id);
    }
    if log.status == Sent {
      IncrementDmsSpec(st.automations, log.automationId);
      forall a | a in st'.automations
        ensures a.dmsSent == SentCount(st'.logs, a.id)
      {
        var j :| 0 <= j < |st'.automations| && st'.automations[j] == a;
        assert st.automations[j] in st.automations;
      }
    }
  }

  /** One change keeps the counters in step with the 'sent' logs: a sent DM
      adds one 'sent' log and one count to the same automation, and 'skipped'
      and 'failed' logs count for nothing. */
  lemma ProcessChangeKeepsInv(st: DbState, c: Change, env: Env)
    requires Inv(st)
    ensures Inv(ProcessChange(st, c, env).state)
  {
    var step := ProcessChange(st, c, env);
    ProcessChangeEffects(st, c, env);
    if step.outcome.WritesLog() {
      var log := step.state.logs[|st.logs|];
      assert step.state.logs == st.logs + [log];
      AppendLogKeepsInv(st, step.state, log);
    }
  }

  // ---------------------------------------------------------------------------
  // properties of a batch

  /** The number of outcomes that wrote a log. */
  function LogsWritten(os: seq<Outcome>): nat {
    if os == [] then 0 else (if os[0].WritesLog() then 1 else 0) + LogsWritten(os[1..])
  }

  lemma {:induction false} LogsWrittenConcat(a: seq<Outcome>, b: seq<Outcome>)
    ensures LogsWritten(a + b) == LogsWritten(a) + LogsWritten(b)
    decreases |a|
  {
    if a == [] {
      assert a + b == b;
    } else {
      assert (a + b)[0] == a[0];
      assert (a + b)[1..] == a[1..] + b;
      LogsWrittenConcat(a[1..], b);
    }
  }

  /** What a run does to the stores, from any state: it keeps the users, only
      appends logs, and appends exactly one per skipped, sent or failed
      outcome. */
  ghost predicate Evolves(st: DbState, r: Run) {
    && r.state.users == st.users
    && st.logs <= r.state.logs
    && |r.state.logs| == |st.logs| + LogsWritten(r.outcomes)
  }

  lemma {:induction false} ChangesRunEvolves(st: DbState, cs: seq<Change>, env: Env)
    ensures Evolves(st, ChangesRun(st, cs, env))
    ensures Inv(st) ==> Inv(ChangesRun(st, cs, env).state)
    decreases |cs|
  {
    if cs != [] {
      var step := ProcessChange(st, cs[0], env);
      ProcessChangeEffects(st, cs[0], env);
      if Inv(st) {
        ProcessChangeKeepsInv(st, cs[0], env);
      }
      if step.outcome != Aborted {
        ChangesRunEvolves(step.state, cs[1..], env);
        var rest := ChangesRun(step.state, cs[1..], env);
        LogsWrittenConcat([step.outcome], rest.outcomes);
        assert st.logs <= step.state.logs;
      }
    }
  }

  lemma {:induction false} EntriesRunEvolves(st: DbState, es: seq<Entry>, env: Env)
    ensures Evolves(st, EntriesRun(st, es, env))
    ensures Inv(st) ==> Inv(EntriesRun(st, es, env).state)
    decreases |es|
  {
    if es != [] && es[0].changes.Some? {
      var first := ChangesRun(st, es[0].changes.value, env);
      ChangesRunEvolves(st, es[0].changes.value, env);
      if !first.aborted {
        EntriesRunEvolves(first.state, es[1..], env);
        var rest := EntriesRun(first.state, es[1..], env);
        LogsWrittenConcat(first.outcomes, rest.outcomes);
      }
    }
  }

  /** A POST never touches users, never rewrites or drops a log, and writes
      exactly one log per skipped, sent or failed change; from a state with
      unique ids and every counter equal to its 'sent' logs, it keeps both. */
  lemma PostEvolves(st: DbState, body: Option<WebhookPayload>, env: Env)
    ensures Evolves(st, Post(st, body, env))
    ensures Inv(st) ==> Inv(Post(st, body, env).state)
  {
    if body.Some? && body.value.objectKind == "instagram" && body.value.entry.Some? {
      EntriesRunEvolves(st, body.value.entry.value, env);
    }
  }

  /** Payloads that are not Instagram's are acknowledged without any effect. */
  lemma OtherObjectsIgnored(st: DbState, p: WebhookPayload, env: Env)
    requires p.objectKind != "instagram"
    ensures Post(st, Some(p), env) == Run(st, [], false)
  {
  }

  /** Running `cs + ds` is running `cs` and then, unless it aborted, `ds` from
      where it left off. */
  lemma {:induction false} ChangesRunConcat(st: DbState, cs: seq<Change>, ds: seq<Change>, env: Env)
    ensures var r := ChangesRun(st, cs, env);
            ChangesRun(st, cs + ds, env) ==
              if r.aborted then r
              else
                var r' := ChangesRun(r.state, ds, env);
                Run(r'.state, r.outcomes + r'.outcomes, r'.aborted)
    decreases |cs|
  {
    if cs == [] {
      assert cs + ds == ds;
    } else {
      assert (cs + ds)[0] == cs[0];
      assert (cs + ds)[1..] == cs[1..] + ds;
      var step := ProcessChange(st, cs[0], env);
      if step.outcome != Aborted {
        ChangesRunConcat(step.state, cs[1..], ds, env);
        var r := ChangesRun(step.state, cs[1..], env);
        if !r.aborted {
          var r' := ChangesRun(r.state, ds, env);
          assert [step.outcome] + (r.outcomes + r'.outcomes) == ([step.outcome] + r.outcomes) + r'.outcomes;
        }
      }
    }
  }

  /** An exception ends the batch where it is thrown: the effects of the
      changes before it stay, nothing after it is handled. */
  lemma AbortKeepsEarlierEffects(st: DbState, cs: seq<Change>, c: Change, ds: seq<Change>, env: Env)
    requires !ChangesRun(st, cs, env).aborted
    requires ProcessChange(ChangesRun(st, cs, env).state, c, env).outcome == Aborted
    ensures ChangesRun(st, cs + [c] + ds, env).aborted
    ensures ChangesRun(st, cs + [c] + ds, env).state == ChangesRun(st, cs, env).state
    ensures ChangesRun(st, cs + [c] + ds, env).outcomes == ChangesRun(st, cs, env).outcomes + [Aborted]
  {
    var r := ChangesRun(st, cs, env);
    assert ([c] + ds)[0] == c;
    assert ChangesRun(r.state, [c] + ds, env) == Run(r.state, [Aborted], true);
    ChangesRunConcat(st, cs, [c] + ds, env);
    assert cs + [c] + ds == cs + ([c] + ds);
  }

  /** A batch of well-formed changes is handled to the end, one outcome per
      change, whatever the sends return: a failed send does not stop the
      changes after it. */
  lemma {:induction false} WellFormedBatchRunsToEnd(st: DbState, cs: seq<Change>, env: Env)
    requires forall k :: 0 <= k < |cs| ==> WellFormed(cs[k])
    ensures !ChangesRun(st, cs, env).aborted
    ensures |ChangesRun(st, cs, env).outcomes| == |cs|
    decreases |cs|
  {
    if cs != [] {
      var step := ProcessChange(st, cs[0], env);
      WellFormedNeverAborts(st, cs[0], env);
      WellFormedBatchRunsToEnd(step.state, cs[1..], env);
    }
  }

  /** When every entry carries `changes`, the two nested loops are one loop
      over all the changes of all the entries, in order. */
  lemma {:induction false} EntriesRunIsChangesRun(st: DbState, es: seq<Entry>, env: Env)
    requires forall k :: 0 <= k < |es| ==> es[k].changes.Some?
    ensures EntriesRun(st, es, env) == ChangesRun(st, AllChanges(es), env)
    decreases |es|
  {
    if es != [] {
      var cs := es[0].changes.value;
      assert AllChanges(es) == cs + AllChanges(es[1..]);
      ChangesRunConcat(st, cs, AllChanges(es[1..]), env);
      var first := ChangesRun(st, cs, env);
      if !first.aborted {
        EntriesRunIsChangesRun(first.state, es[1..], env);
      }
    }
  }

  /** An entry without `changes` throws: the batch ends there, aborted, with
      exactly the effects and outcomes of the changes of the entries before
      it, and the entries after it are never looked at. */
  lemma {:induction false} MissingChangesAborts(st: DbState, es: seq<Entry>, k: nat, env: Env)
    requires k < |es| && es[k].changes.None?
    requires forall j :: 0 <= j < k ==> es[j].changes.Some?
    ensures var r := ChangesRun(st, AllChanges(es[..k]), env);
            EntriesRun(st, es, env) == Run(r.state, r.outcomes, true)
    decreases k
  {
    if k == 0 {
      assert es[..0] == [];
    } else {
      var cs := es[0].changes.value;
      var tail := es[1..];
      assert es[..k] == [es[0]] + tail[..k - 1];
      assert AllChanges(es[..k]) == cs + AllChanges(tail[..k - 1]);
      ChangesRunConcat(st, cs, AllChanges(tail[..k - 1]), env);
      var first := ChangesRun(st, cs, env);
      if !first.aborted {
        MissingChangesAborts(first.state, tail, k - 1, env);
      }
    }
  }

  /** An Instagram payload whose entries all carry `changes`, every one of them
      well formed, is handled to the end: one outcome per change of every
      entry, whatever the sends return. */
  lemma WellFormedPayloadRunsToEnd(st: DbState, p: WebhookPayload, env: Env)
    requires p.objectKind == "instagram" && p.entry.Some?
    requires forall k :: 0 <= k < |p.entry.value| ==> p.entry.value[k].changes.Some?
    requires forall k :: 0 <= k < |AllChanges(p.entry.value)| ==> WellFormed(AllChanges(p.entry.value)[k])
    ensures Post(st, Some(p), env) == ChangesRun(st, AllChanges(p.entry.value), env)
    ensures !Post(st, Some(p), env).aborted
    ensures |Post(st, Some(p), env).outcomes| == |AllChanges(p.entry.value)|
  {
    EntriesRunIsChangesRun(st, p.entry.value, env);
    WellFormedBatchRunsToEnd(st, AllChanges(p.entry.value), env);
  }

  /** After a delivered DM, the same comment matches the same rule, now with
      one more DM counted, and the commenter has a 'sent' log for it. */
  lemma AfterSendSameRule(st: DbState, c: Change, env: Env)
    requires ValidState(st)
    requires MatchedRule(st, c).Some? && ProcessChange(st, c, env).outcome == DmSent
    ensures var a := MatchedRule(st, c).value;
            var st' := ProcessChange(st, c, env).state;
            && MatchedRule(st', c) == Some(a.(dmsSent := a.dmsSent + 1))
            && HasSent(st'.logs, a.id, CommenterOf(c))
  {
    var st' := ProcessChange(st, c, env).state;
    ProcessChangeEffects(st, c, env);
    var log := st'.logs[|st.logs|];
    assert st'.logs == st.logs + [log];
    SentSameRule(st, st', c, log);
  }

  /** A state that counts one more DM for a comment's rule and holds a 'sent'
      log for its commenter still matches the comment to that rule. */
  lemma SentSameRule(st: DbState, st': DbState, c: Change, log: AutomationLog)
    requires ValidState(st) && MatchedRule(st, c).Some?
    requires st'.automations == IncrementDms(st.automations, MatchedRule(st, c).value.id)
    requires st'.logs == st.logs + [log] && SentTo(log, MatchedRule(st, c).value.id, CommenterOf(c))
    ensures var a := MatchedRule(st, c).value;
            && MatchedRule(st', c) == Some(a.(dmsSent := a.dmsSent + 1))
            && HasSent(st'.logs, a.id, CommenterOf(c))
  {
    var a := MatchedRule(st, c).value;
    ActiveForMediaAfterIncrement(st.automations, a.id, c.value.value.media.value.id);
    HasSentAppend(st.logs, log, a.id, CommenterOf(c));
  }


  /** Two changes that do not abort run one after the other. */
  lemma ChangesRunPair(st: DbState, c: Change, d: Change, env: Env)
    requires ProcessChange(st, c, env).outcome != Aborted
    requires ProcessChange(ProcessChange(st, c, env).state, d, env).outcome != Aborted
    ensures var first := ProcessChange(st, c, env);
            var second := ProcessChange(first.state, d, env);
            ChangesRun(st, [c, d], env) == Run(second.state, [first.outcome, second.outcome], false)
  {
    var first := ProcessChange(st, c, env);
    var second := ProcessChange(first.state, d, env);
    assert ChangesRun(second.state, [], env) == Run(second.state, [], false);
    assert [d][0] == d && [d][1..] == [];
    assert ChangesRun(first.state, [d], env) == Run(second.state, [second.outcome], false);
    assert [c, d][0] == c && [c, d][1..] == [d];
    assert [first.outcome] + [second.outcome] == [first.outcome, second.outcome];
  }

  /** The same qualifying comment twice, with reply-once on, no earlier 'sent'
      log for the commenter, the owner present and the oracle delivering the
      first send: one 'sent' log, then one 'skipped' log, and one DM counted. */
  lemma RepeatedCommentSentOnce(st: DbState, c: Change, env: Env)
    requires ValidState(st)
    requires MatchedRule(st, c).Some? && MatchedRule(st, c).value.replyOncePerUser
    requires !HasSent(st.logs, MatchedRule(st, c).value.id, CommenterOf(c))
    requires Keyed.Get(st.users, UserKey, MatchedRule(st, c).value.userId).Some?
    requires env.send(|st.logs|, RequestFor(MatchedRule(st, c).value,
                                            Keyed.Get(st.users, UserKey, MatchedRule(st, c).value.userId).value,
                                            CommenterOf(c))) == SendOk
    ensures var r := ChangesRun(st, [c, c], env);
            && r.outcomes == [DmSent, Deduplicated]
            && |r.state.logs| == |st.logs| + 2
            && r.state.logs[|st.logs|].status == Sent
            && r.state.logs[|st.logs| + 1].status == Skipped
            && r.state.automations == IncrementDms(st.automations, MatchedRule(st, c).value.id)
  {
    var step := ProcessChange(st, c, env);
    MatchedOutcome(st, c, env);
    ProcessChangeEffects(st, c, env);
    AfterSendSameRule(st, c, env);
    DedupSkipsSend(step.state, c, env, env);
    var second := ProcessChange(step.state, c, env);
    ProcessChangeEffects(step.state, c, env);
    assert second.outcome == Deduplicated;
    ChangesRunPair(st, c, c, env);
  }
}
