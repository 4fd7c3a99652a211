/**
 * The `notify-admin-inquiry` edge function
 * (supabase/functions/notify-admin-inquiry/index.ts): on a new pilot inquiry
 * it looks up the admin users, e-mails each admin with an address, and
 * reports how many of the e-mails were sent. The database, the auth
 * service and the mail service are inputs of the model.
 */
module NotifyAdmin {
  import opened Wrappers

  /** The inserted `pilot_inquiries` row carried by the webhook payload. */
  datatype Inquiry = Inquiry(
    id: string, name: string, email: string, organization: Option<string>,
    role: string, projectDescription: string, createdAt: string)

  /** A row of `user_roles` selected with `role = 'admin'`. */
  datatype RoleRow = RoleRow(userId: string)

  /** A user of `auth.admin.listUsers`; the e-mail may be missing. */
  datatype AuthUser = AuthUser(id: string, email: Option<string>)

  /** How a send settled under `Promise.allSettled`. */
  datatype Settled = Fulfilled | Rejected

  /** The JSON body of a response; the preflight answer has none. */
  datatype Body =
    | NoBody
    | Message(message: string)
    | Processed(message: string, sent: nat, failed: nat)
    | Failure(error: string)

  datatype Response = Response(status: nat, body: Body)

  /** An outside call made by the handler, in order. */
  datatype Step = ReadPayload | FetchAdminRoles | ListUsers | SendEmail(to: string)

  // ---------------------------------------------------------------------------
  // Recipient selection
  // ---------------------------------------------------------------------------

  /** `adminRoles.map(role => role.user_id)`. */
  function UserIds(roles: seq<RoleRow>): seq<string>
  {
    if roles == [] then [] else [roles[0].userId] + UserIds(roles[1..])
  }

  /** `users.filter(user => ids.includes(user.id))`. */
  function WithIds(users: seq<AuthUser>, ids: seq<string>): seq<AuthUser>
  {
    if users == [] then []
    else (if users[0].id in ids then [users[0]] else []) + WithIds(users[1..], ids)
  }

  /** `.map(user => user.email)`. */
  function EmailsOf(users: seq<AuthUser>): seq<Option<string>>
  {
    if users == [] then [] else [users[0].email] + EmailsOf(users[1..])
  }

  /** `.filter(email => !!email)`: neither missing nor empty. */
  function Present(emails: seq<Option<string>>): seq<string>
  {
    if emails == [] then []
    else (if emails[0].Some? && emails[0].value != "" then [emails[0].value] else []) + Present(emails[1..])
  }

  /** `adminEmails`: the addresses the notification goes to. */
  function AdminEmails(roles: seq<RoleRow>, users: seq<AuthUser>): seq<string>
  {
    Present(EmailsOf(WithIds(users, UserIds(roles))))
  }

  /** `e` is the address of a listed user who holds the admin role. */
  predicate IsAdminAddress(e: string, roles: seq<RoleRow>, users: seq<AuthUser>)
  {
    exists i, j :: 0 <= i < |users| && 0 <= j < |roles| && users[i].email == Some(e) && users[i].id == roles[j].userId
  }

  lemma {:induction false} UserIdsSpec(roles: seq<RoleRow>)
    ensures |UserIds(roles)| == |roles|
    ensures forall j :: 0 <= j < |roles| ==> UserIds(roles)[j] == roles[j].userId
  {
    if roles != [] {
      UserIdsSpec(roles[1..]);
    }
  }

  lemma {:induction false} EmailsOfSpec(users: seq<AuthUser>)
    ensures |EmailsOf(users)| == |users|
    ensures forall i :: 0 <= i < |users| ==> EmailsOf(users)[i] == users[i].email
  {
    if users != [] {
      EmailsOfSpec(users[1..]);
    }
  }

  lemma {:induction false} WithIdsSpec(users: seq<AuthUser>, ids: seq<string>)
    ensures forall u :: u in WithIds(users, ids) <==> u in users && u.id in ids
    ensures |WithIds(users, ids)| <= |users|
  {
    if users != [] {
      WithIdsSpec(users[1..], ids);
      assert forall u :: u in users <==> u == users[0] || u in users[1..];
    }
  }

  lemma {:induction false} PresentSpec(emails: seq<Option<string>>)
    ensures forall e :: e in Present(emails) <==> Some(e) in emails && e != ""
    ensures |Present(emails)| <= |emails|
  {
    if emails != [] {
      PresentSpec(emails[1..]);
      assert forall o :: o in emails <==> o == emails[0] || o in emails[1..];
    }
  }

  /** Every recipient is a non-empty address of a listed user holding the admin role. */
  lemma AdminEmailsSound(roles: seq<RoleRow>, users: seq<AuthUser>, e: string)
    requires e in AdminEmails(roles, users)
    ensures e != "" && IsAdminAddress(e, roles, users)
  {
    var ids := UserIds(roles);
    var admins := WithIds(users, ids);
    PresentSpec(EmailsOf(admins));
    EmailsOfSpec(admins);
    var k :| 0 <= k < |admins| && EmailsOf(admins)[k] == Some(e);
    var u := admins[k];
    WithIdsSpec(users, ids);
    assert u in users && u.id in ids;
    var i :| 0 <= i < |users| && users[i] == u;
    UserIdsSpec(roles);
    var j :| 0 <= j < |ids| && ids[j] == u.id;
    assert users[i].id == roles[j].userId;
  }

  /** Every non-empty address of a listed user holding the admin role is a recipient. */
  lemma AdminEmailsComplete(roles: seq<RoleRow>, users: seq<AuthUser>, e: string)
    requires e != "" && IsAdminAddress(e, roles, users)
    ensures e in AdminEmails(roles, users)
  {
    var ids := UserIds(roles);
    var admins := WithIds(users, ids);
    var i, j :| 0 <= i < |users| && 0 <= j < |roles| && users[i].email == Some(e) && users[i].id == roles[j].userId;
    UserIdsSpec(roles);
    assert users[i].id in ids;
    WithIdsSpec(users, ids);
    assert users[i] in admins;
    var k :| 0 <= k < |admins| && admins[k] == users[i];
    EmailsOfSpec(admins);
    assert Some(e) in EmailsOf(admins);
    PresentSpec(EmailsOf(admins));
  }

  /**
   * The recipients are exactly the non-empty addresses of the listed users
   * whose id has the admin role, and there are no more of them than users.
   */
  lemma AdminEmailsSpec(roles: seq<RoleRow>, users: seq<AuthUser>)
    ensures forall e :: e in AdminEmails(roles, users) <==> e != "" && IsAdminAddress(e, roles, users)
    ensures |AdminEmails(roles, users)| <= |users|
  {
    forall e ensures e in AdminEmails(roles, users) <==> e != "" && IsAdminAddress(e, roles, users) {
      if e in AdminEmails(roles, users) {
        AdminEmailsSound(roles, users, e);
      } else if e != "" && IsAdminAddress(e, roles, users) {
        AdminEmailsComplete(roles, users, e);
      }
    }
    var admins := WithIds(users, UserIds(roles));
    WithIdsSpec(users, UserIds(roles));
    EmailsOfSpec(admins);
    PresentSpec(EmailsOf(admins));
  }

  // ---------------------------------------------------------------------------
  // Counting the settled sends
  // ---------------------------------------------------------------------------

  /** `results.filter(r => r.status === status).length`. */
  function CountStatus(results: seq<Settled>, status: Settled): nat
  {
    if results == [] then 0
    else (if results[0] == status then 1 else 0) + CountStatus(results[1..], status)
  }

  /** Every send settles one way or the other: the two counts add up to the number of sends. */
  lemma {:induction false} CountSplit(results: seq<Settled>)
    ensures CountStatus(results, Fulfilled) + CountStatus(results, Rejected) == |results|
  {
    if results != [] {
      CountSplit(results[1..]);
    }
  }

  /** Nothing failed exactly when every send was fulfilled. */
  lemma {:induction false} NoneFailed(results: seq<Settled>)
    ensures CountStatus(results, Rejected) == 0 <==> forall i :: 0 <= i < |results| ==> results[i] == Fulfilled
  {
    if results != [] {
      NoneFailed(results[1..]);
      assert forall i :: 1 <= i < |results| ==> results[i] == results[1..][i - 1];
    }
  }

  /** `adminEmails.map(...)` awaited with `allSettled`: how the `i`-th send to `to` settles. */
  function SettleAll(emails: seq<string>, settle: (nat, string) -> Settled): seq<Settled>
  {
    seq(|emails|, i requires 0 <= i < |emails| => settle(i, emails[i]))
  }

  /** One send step per recipient, in order. */
  function SendSteps(emails: seq<string>): seq<Step>
  {
    if emails == [] then [] else [SendEmail(emails[0])] + SendSteps(emails[1..])
  }

  lemma {:induction false} SendStepsSpec(emails: seq<string>)
    ensures |SendSteps(emails)| == |emails|
    ensures forall i :: 0 <= i < |emails| ==> SendSteps(emails)[i] == SendEmail(emails[i])
  {
    if emails != [] {
      SendStepsSpec(emails[1..]);
    }
  }

  /**
   * The error thrown when the payload has no `record`: the first e-mail's
   * subject reads `record.name`, before any `fetch` is made.
   */
  const ProcessedMessage: string := "Notification processed"

  const MissingRecordError: string := "Cannot read properties of undefined (reading 'name')"

  /** The `adminRoles` guard: no rows, or a null result. */
  predicate NoAdmins(rows: Option<seq<RoleRow>>)
  {
    rows.None? || |rows.value| == 0
  }

  // ---------------------------------------------------------------------------
  // The handler
  // ---------------------------------------------------------------------------

  /**
   * `handler`, given the request method and, as inputs, what reading the
   * payload, the `user_roles` query, `listUsers` and each send yield (an
   * error carries its message). The payload's `record` is `None` when the
   * payload parses to a value without one. Returns the response and the
   * outside calls made.
   */
  method Handle(
    httpMethod: string,
    payload: Result<Option<Inquiry>, string>,
    roles: Result<Option<seq<RoleRow>>, string>,
    users: Result<seq<AuthUser>, string>,
    settle: (nat, string) -> Settled)
    returns (response: Response, steps: seq<Step>)
    // A preflight is answered at once, before the payload is read.
    ensures httpMethod == "OPTIONS" <==> response == Response(200, NoBody)
    ensures httpMethod == "OPTIONS" ==> steps == []
    // Each failing lookup ends the request with a 500 carrying its message.
    ensures httpMethod != "OPTIONS" && payload.Err? ==>
              response == Response(500, Failure(payload.error)) && steps == [ReadPayload]
    ensures httpMethod != "OPTIONS" && payload.Ok? && roles.Err? ==>
              response == Response(500, Failure(roles.error)) && steps == [ReadPayload, FetchAdminRoles]
    // No admin role: 200 without any send.
    ensures httpMethod != "OPTIONS" && payload.Ok? && roles.Ok? && NoAdmins(roles.value) ==>
              response == Response(200, Message("No admin users to notify")) && steps == [ReadPayload, FetchAdminRoles]
    ensures httpMethod != "OPTIONS" && payload.Ok? && roles.Ok? && !NoAdmins(roles.value) && users.Err? ==>
              response == Response(500, Failure(users.error)) && steps == [ReadPayload, FetchAdminRoles, ListUsers]
    // No admin with an address: 200 without any send.
    ensures httpMethod != "OPTIONS" && payload.Ok? && roles.Ok? && !NoAdmins(roles.value) && users.Ok?
            && AdminEmails(roles.value.value, users.value) == [] ==>
              response == Response(200, Message("No admin emails found")) && steps == [ReadPayload, FetchAdminRoles, ListUsers]
    // Recipients but no record: the first e-mail's subject throws, a 500 before any send.
    ensures httpMethod != "OPTIONS" && payload.Ok? && payload.value.None? && roles.Ok? && !NoAdmins(roles.value) && users.Ok?
            && AdminEmails(roles.value.value, users.value) != [] ==>
              response == Response(500, Failure(MissingRecordError)) && steps == [ReadPayload, FetchAdminRoles, ListUsers]
    // Otherwise one send per recipient, and the counts of how they settled.
    ensures httpMethod != "OPTIONS" && payload.Ok? && payload.value.Some? && roles.Ok? && !NoAdmins(roles.value) && users.Ok?
            && AdminEmails(roles.value.value, users.value) != [] ==>
              var emails := AdminEmails(roles.value.value, users.value);
              var results := SettleAll(emails, settle);
              && steps == [ReadPayload, FetchAdminRoles, ListUsers] + SendSteps(emails)
              && response == Response(200, Processed(ProcessedMessage, CountStatus(results, Fulfilled), CountStatus(results, Rejected)))
    ensures response.body.Processed? ==> response.body.sent + response.body.failed == |steps| - 3
  {
    if httpMethod == "OPTIONS" {
      return Response(200, NoBody), [];
    }
    steps := [ReadPayload];
    if payload.Err? {
      return Response(500, Failure(payload.error)), steps;
    }
    steps := steps + [FetchAdminRoles];
    if roles.Err? {
      return Response(500, Failure(roles.error)), steps;
    }
    var adminRoles := roles.value;
    if adminRoles.None? || |adminRoles.value| == 0 {
      return Response(200, Message("No admin users to notify")), steps;
    }
    steps := steps + [ListUsers];
    if users.Err? {
      return Response(500, Failure(users.error)), steps;
    }
    var adminEmails := AdminEmails(adminRoles.value, users.value);
    if |adminEmails| == 0 {
      return Response(200, Message("No admin emails found")), steps;
    }
    if payload.value.None? {
      return Response(500, Failure(MissingRecordError)), steps;
    }
    steps := steps + SendSteps(adminEmails);
    var results := SettleAll(adminEmails, settle);
    var successCount := CountStatus(results, Fulfilled);
    var failureCount := CountStatus(results, Rejected);
    CountSplit(results);
    SendStepsSpec(adminEmails);
    response := Response(200, Processed(ProcessedMessage, successCount, failureCount));
  }
}
