/** The server's module-level `connectedUsers` array and its route handlers,
    which change it in place. Each handler is proved to leave the store and
    give the reply that the matching rule in accounts.dfy prescribes. */
module Server {
  import opened Values
  import opened Accounts

  /** The `findIndex`/`find` scan: the first position whose key is `k`, or -1. */
  method FindIndex(s: seq<Account>, key: Key, k: string) returns (i: int)
    ensures -1 <= i < |s|
    ensures 0 <= i ==> KeyOf(s[i], key) == k && forall j :: 0 <= j < i ==> KeyOf(s[j], key) != k
    ensures i == -1 ==> forall j :: 0 <= j < |s| ==> KeyOf(s[j], key) != k
    ensures i == IndexOf(s, key, k)
  {
    i := 0;
    while i < |s|
      invariant 0 <= i <= |s|
      invariant forall j :: 0 <= j < i ==> KeyOf(s[j], key) != k
    {
      if KeyOf(s[i], key) == k {
        return;
      }
      i := i + 1;
    }
    i := -1;
  }

  /** The in-memory list of connected accounts. */
  class ConnectedUsers {
    var users: seq<Account>

    ghost predicate Valid()
      reads this
    {
      UniqueIds(users)
    }

    constructor ()
      ensures Valid() && users == []
    {
      users := [];
    }

    /** `POST /api/auth/gmail/callback`, given the outcomes of the token
        exchange and the profile fetch and the current instant. */
    method Callback(exchange: Call<Tokens>, profile: Call<Profile>, nowIso: string)
      returns (r: Reply<UserSummary>)
      requires Valid()
      modifies this
      ensures Valid()
      ensures users == CallbackEffect(old(users), exchange, profile, nowIso).store
      ensures r == CallbackEffect(old(users), exchange, profile, nowIso).reply
    {
      if exchange.Threw? || profile.Threw? {
        return Err(AuthFailed);
      }
      var user := NewRecord(profile.value, exchange.value, nowIso);
      UpsertKeepsIdsUnique(users, user);
      var i := FindIndex(users, ById, user.id);
      if i != -1 {
        users := users[i := Merge(users[i], user)];
      } else {
        users := users + [user];
      }
      r := Ok(UserSummary(user.email, user.name));
    }

    /** `GET /api/auth/status?email=`; it reads the store and never changes it. */
    method Status(email: Option<string>) returns (r: Reply<Status>)
      ensures r == LookupStatus(users, email)
    {
      if !Truthy(email) {
        return Err(EmailRequired);
      }
      var i := FindIndex(users, ByEmail, email.value);
      if i == -1 {
        return Ok(NotConnected);
      }
      r := Ok(StatusOf(users[i]));
    }

    /** `GET /api/admin/users` behind the admin gate. */
    method ListUsers(cookie: Option<string>, verify: string -> bool) returns (r: Reply<seq<PublicAccount>>)
      ensures AdminGate(cookie, verify).Deny? ==> r == Err(AdminGate(cookie, verify).failure)
      ensures AdminGate(cookie, verify).Next? ==> r == Ok(PublicList(users))
    {
      var g := AdminGate(cookie, verify);
      if g.Deny? {
        return Err(g.failure);
      }
      r := Ok(PublicList(users));
    }

    /** `POST /api/admin/users/:id/sync` behind the admin gate, given the clock,
        the outcome of the token refresh and that of the message listing. */
    method Sync(cookie: Option<string>, verify: string -> bool, id: string, nowMs: int, nowIso: string,
                refresh: Call<Credentials>, listing: Call<Option<seq<string>>>)
      returns (r: Reply<SyncReport>)
      requires Valid()
      modifies this
      ensures Valid()
      ensures var e := Guarded(AdminGate(cookie, verify), old(users),
                               SyncEffect(old(users), id, nowMs, nowIso, refresh, listing));
              users == e.store && r == e.reply
    {
      var g := AdminGate(cookie, verify);
      if g.Deny? {
        return Err(g.failure);
      }
      SyncKeepsIdsUnique(users, id, nowMs, nowIso, refresh, listing);
      var i := FindIndex(users, ById, id);
      if i == -1 {
        return Err(UserNotFound);
      }
      if Expired(nowMs, users[i].expiryDate) {
        if refresh.Threw? {
          return Err(SyncFailed);
        }
        users := users[i := users[i].(accessToken := refresh.value.accessToken,
                                      expiryDate := refresh.value.expiryDate)];
      }
      if listing.Threw? {
        return Err(SyncFailed);
      }
      // The second scan finds the same record: nothing else ran in between.
      assert KeyOf(users[i], ById) == id;
      assert forall j :: 0 <= j < i ==> KeyOf(users[j], ById) != id;
      var k := FindIndex(users, ById, id);
      assert k == i;
      users := users[k := users[k].(lastSynced := Some(nowIso))];
      r := Ok(SyncReport(MessageCount(listing.value), users[k].lastSynced.value));
    }

    /** `DELETE /api/admin/users/:id` behind the admin gate, given whether the
        upstream revoke of a token succeeds. */
    method Revoke(cookie: Option<string>, verify: string -> bool, id: string, upstream: string -> bool)
      returns (r: Reply<RevokeAck>)
      requires Valid()
      modifies this
      ensures Valid()
      ensures var e := Guarded(AdminGate(cookie, verify), old(users), RevokeEffect(old(users), id, upstream));
              users == e.store && r == e.reply
    {
      var g := AdminGate(cookie, verify);
      if g.Deny? {
        return Err(g.failure);
      }
      var i := FindIndex(users, ById, id);
      if i == -1 {
        return Err(UserNotFound);
      }
      RevokeRemovesExactly(users, id, upstream);
      var revoked := upstream(users[i].accessToken);
      users := users[..i] + users[i + 1..];
      if revoked {
        r := Ok(RevokeAck(None));
      } else {
        r := Ok(RevokeAck(Some(RevokeWarning)));
      }
    }
  }
}
