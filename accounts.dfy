/** The connected-account records of the Gmail server and the rules its route
    handlers apply to the in-memory list of them, as functions of that list.
    The class in server.dfy changes the list step by step and is proved to
    follow these rules. */
module Accounts {
  import opened Values

  /** One connected Gmail account, as the server stores it. */
  datatype Account = Account(
    id: string,
    email: string,
    name: string,
    picture: Option<string>,
    accessToken: string,
    refreshToken: Option<string>,
    expiryDate: Option<int>,     // milliseconds since the epoch
    connectedAt: string,         // an ISO-8601 instant
    lastSynced: Option<string>)  // an ISO-8601 instant, or null

  /** What the token exchange hands back for an authorization code. */
  datatype Tokens = Tokens(accessToken: string, refreshToken: Option<string>, expiryDate: Option<int>)

  /** What the profile endpoint hands back. */
  datatype Profile = Profile(id: string, email: string, name: string, picture: Option<string>)

  /** What a token refresh hands back. */
  datatype Credentials = Credentials(accessToken: string, expiryDate: Option<int>)

  /** The callback's success body: `{ success: true, user: { email, name } }`. */
  datatype UserSummary = UserSummary(email: string, name: string)

  /** The status body: `{ connected: false }` or the connected account's public fields. */
  datatype Status =
    | NotConnected
    | Connected(name: string, email: string, picture: Option<string>, connectedAt: string,
                expiryDate: Option<int>, lastSynced: Option<string>)

  /** An entry of the admin list: an account without its two tokens. */
  datatype PublicAccount = PublicAccount(
    id: string, email: string, name: string, picture: Option<string>,
    connectedAt: string, expiryDate: Option<int>, lastSynced: Option<string>)

  /** The sync body: `{ success: true, messageCount, lastSynced }`. */
  datatype SyncReport = SyncReport(messageCount: nat, lastSynced: string)

  /** The revoke body: `{ success: true }`, with a `warning` when the upstream revoke threw. */
  datatype RevokeAck = RevokeAck(warning: Option<string>)

  /** The cookie that admin login sets. */
  datatype SessionCookie = SessionCookie(name: string, token: string, httpOnly: bool, maxAgeMs: nat)

  /** What the admin middleware does with a request: pass it on, or answer it. */
  datatype Gate = Next | Deny(failure: Failure)

  /** A handler's new store together with its reply. */
  datatype Effect<T> = Effect(store: seq<Account>, reply: Reply<T>)

  const EmailRequired := Failure(400, "Email is required")
  const AuthRequired := Failure(401, "Authentication required")
  const InvalidToken := Failure(401, "Invalid or expired token")
  const InvalidSecret := Failure(401, "Invalid secret key")
  const UserNotFound := Failure(404, "User not found")
  const AuthFailed := Failure(500, "Failed to authenticate with Gmail")
  const SyncFailed := Failure(500, "Failed to sync with Gmail")
  const RevokeWarning := "User removed but token revocation may have failed"
  const SessionCookieName := "admin_token"
  const SessionMaxAgeMs: nat := 3600000

  // ---------------------------------------------------------------------------
  // Scans

  /** The field a scan compares. */
  datatype Key = ById | ByEmail

  function KeyOf(a: Account, key: Key): string
  {
    match key
    case ById => a.id
    case ByEmail => a.email
  }

  /** `findIndex(u => u[key] === k)`: the first position whose key is `k`, or -1. */
  function IndexOf(s: seq<Account>, key: Key, k: string): (i: int)
    ensures -1 <= i < |s|
    ensures 0 <= i ==> KeyOf(s[i], key) == k
    ensures 0 <= i ==> forall j :: 0 <= j < i ==> KeyOf(s[j], key) != k
    ensures i == -1 <==> forall j :: 0 <= j < |s| ==> KeyOf(s[j], key) != k
  {
    if s == [] then -1
    else if KeyOf(s[0], key) == k then 0
    else
      var t := IndexOf(s[1..], key, k);
      assert forall j :: 1 <= j < |s| ==> s[j] == s[1..][j - 1];
      if t == -1 then -1 else t + 1
  }

  /** No two stored records share an id. */
  predicate UniqueIds(s: seq<Account>)
  {
    forall i, j :: 0 <= i < j < |s| ==> s[i].id != s[j].id
  }

  /** The store without any record carrying `id`, the others in their order. */
  function WithoutId(s: seq<Account>, id: string): (r: seq<Account>)
    ensures |r| <= |s|
  {
    if s == [] then []
    else (if s[0].id == id then [] else [s[0]]) + WithoutId(s[1..], id)
  }

  /** A record survives the filter exactly when its id differs from `id`. */
  lemma {:induction false} WithoutIdMembers(s: seq<Account>, id: string)
    ensures forall a :: a in WithoutId(s, id) <==> a in s && a.id != id
  {
    if s != [] {
      WithoutIdMembers(s[1..], id);
      assert s == [s[0]] + s[1..];
    }
  }

  // ---------------------------------------------------------------------------
  // OAuth callback

  /** The record the callback builds from the exchange and the profile. */
  function NewRecord(p: Profile, t: Tokens, nowIso: string): (a: Account)
    ensures a.id == p.id && a.email == p.email && a.refreshToken == t.refreshToken
    ensures a.connectedAt == nowIso && a.lastSynced == None
  {
    Account(p.id, p.email, p.name, p.picture, t.accessToken, t.refreshToken, t.expiryDate, nowIso, None)
  }

  /** `{ ...prior, ...user, refreshToken: user.refreshToken || prior.refreshToken }`. */
  function Merge(prior: Account, user: Account): (m: Account)
    ensures m.id == user.id && m.connectedAt == user.connectedAt && m.lastSynced == user.lastSynced
    ensures Truthy(prior.refreshToken) || Truthy(user.refreshToken) ==> Truthy(m.refreshToken)
    ensures Truthy(user.refreshToken) ==> m.refreshToken == user.refreshToken
  {
    user.(refreshToken := if Truthy(user.refreshToken) then user.refreshToken else prior.refreshToken)
  }

  /** Replace the first record with `user`'s id by the merge, or append `user`. */
  function Upsert(s: seq<Account>, user: Account): (r: seq<Account>)
    ensures |s| <= |r| <= |s| + 1
    ensures exists i :: 0 <= i < |r| && r[i].id == user.id
  {
    var i := IndexOf(s, ById, user.id);
    if i == -1 then
      assert (s + [user])[|s|].id == user.id;
      s + [user]
    else
      assert s[i := Merge(s[i], user)][i].id == user.id;
      s[i := Merge(s[i], user)]
  }

  /** The callback handler: a failed exchange or profile fetch answers 500 and
      leaves the store alone; otherwise the record is upserted. */
  function CallbackEffect(s: seq<Account>, exchange: Call<Tokens>, profile: Call<Profile>, nowIso: string)
    : (e: Effect<UserSummary>)
    ensures e.reply.Err? <==> exchange.Threw? || profile.Threw?
    ensures e.reply.Err? ==> e.store == s && e.reply.failure == AuthFailed
    ensures e.reply.Ok? ==> e.reply.body.email == profile.value.email && e.reply.body.name == profile.value.name
    ensures e.reply.Ok? ==> exists i :: 0 <= i < |e.store| && e.store[i].id == profile.value.id
  {
    if exchange.Threw? || profile.Threw? then Effect(s, Err(AuthFailed))
    else
      var user := NewRecord(profile.value, exchange.value, nowIso);
      var r := Upsert(s, user);
      assert r[if IndexOf(s, ById, user.id) == -1 then |s| else IndexOf(s, ById, user.id)].id == user.id;
      Effect(r, Ok(UserSummary(user.email, user.name)))
  }

  /** A new id is appended at the end; every existing record stays where it was. */
  lemma UpsertAppendsNew(s: seq<Account>, user: Account)
    requires forall j :: 0 <= j < |s| ==> s[j].id != user.id
    ensures |Upsert(s, user)| == |s| + 1
    ensures Upsert(s, user)[..|s|] == s && Upsert(s, user)[|s|] == user
  {
    assert IndexOf(s, ById, user.id) == -1;
    assert (s + [user])[..|s|] == s;
  }

  /** A known id keeps the length; the record at its position takes every new
      field except that a falsy new refresh token keeps the stored one; the
      other records are untouched. */
  lemma UpsertMergesExisting(s: seq<Account>, user: Account, i: nat)
    requires i < |s| && s[i].id == user.id
    requires forall j :: 0 <= j < i ==> s[j].id != user.id
    ensures |Upsert(s, user)| == |s|
    ensures forall j :: 0 <= j < |s| && j != i ==> Upsert(s, user)[j] == s[j]
    ensures var m := Upsert(s, user)[i];
      && m.id == user.id && m.email == user.email && m.name == user.name
      && m.picture == user.picture && m.accessToken == user.accessToken
      && m.expiryDate == user.expiryDate && m.connectedAt == user.connectedAt
      && m.lastSynced == user.lastSynced
      && m.refreshToken == (if Truthy(user.refreshToken) then user.refreshToken else s[i].refreshToken)
  {
    assert IndexOf(s, ById, user.id) == i;
  }

  /** Upserting keeps ids unique, and the stored ids grow by exactly `user.id`. */
  lemma UpsertKeepsIdsUnique(s: seq<Account>, user: Account)
    requires UniqueIds(s)
    ensures UniqueIds(Upsert(s, user))
    ensures forall a :: a in Upsert(s, user) ==> a.id == user.id || a in s
  {
    var i := IndexOf(s, ById, user.id);
    var r := Upsert(s, user);
    if i == -1 {
      forall a, b | 0 <= a < b < |r| ensures r[a].id != r[b].id {
        if b == |s| { assert r[a] == s[a]; } else { assert r[a] == s[a] && r[b] == s[b]; }
      }
    } else {
      forall a, b | 0 <= a < b < |r| ensures r[a].id != r[b].id {
        assert r[a].id == s[a].id && r[b].id == s[b].id;
      }
    }
  }

  /** A refresh token, once stored, is never replaced by an absent one. */
  lemma {:induction false} UpsertNeverDropsRefreshToken(s: seq<Account>, user: Account, j: nat)
    requires j < |s| && Truthy(s[j].refreshToken)
    ensures |Upsert(s, user)| >= |s|
    ensures Upsert(s, user)[j].id == s[j].id && Truthy(Upsert(s, user)[j].refreshToken)
  {
    var i := IndexOf(s, ById, user.id);
    if i == j {
      assert Upsert(s, user)[j] == Merge(s[j], user);
    }
  }

  // ---------------------------------------------------------------------------
  // Status lookup

  function StatusOf(a: Account): (st: Status)
    ensures st.Connected? && st.email == a.email && st.lastSynced == a.lastSynced
  {
    Connected(a.name, a.email, a.picture, a.connectedAt, a.expiryDate, a.lastSynced)
  }

  /** `GET /api/auth/status?email=`: 400 without an email, `connected: false`
      without a matching record, else the fields of the first record with
      that email. */
  function LookupStatus(s: seq<Account>, email: Option<string>): (r: Reply<Status>)
    ensures !Truthy(email) ==> r == Err(EmailRequired)
    ensures Truthy(email) ==> r.Ok?
    ensures r == Ok(NotConnected) <==>
              Truthy(email) && forall j :: 0 <= j < |s| ==> s[j].email != email.value
    ensures r.Ok? && r.body.Connected? ==>
              r.body.email == email.value &&
              exists i :: 0 <= i < |s| && r.body == StatusOf(s[i]) &&
                (forall j :: 0 <= j < i ==> s[j].email != email.value)
  {
    if !Truthy(email) then Err(EmailRequired)
    else
      var i := IndexOf(s, ByEmail, email.value);
      if i == -1 then Ok(NotConnected) else Ok(StatusOf(s[i]))
  }

  // ---------------------------------------------------------------------------
  // Admin guard, login and list

  /** The admin middleware: a missing or empty cookie and a cookie the
      verifier rejects are both 401; only a verified token reaches the handler. */
  function AdminGate(cookie: Option<string>, verify: string -> bool): (g: Gate)
    ensures g.Next? <==> Truthy(cookie) && verify(cookie.value)
    ensures g.Deny? ==> g.failure.status == 401
    ensures !Truthy(cookie) ==> g == Deny(AuthRequired)
  {
    if !Truthy(cookie) then Deny(AuthRequired)
    else if !verify(cookie.value) then Deny(InvalidToken)
    else Next
  }

  /** An admin route: the gate runs first and a denied request leaves the store alone. */
  function Guarded<T>(g: Gate, s: seq<Account>, e: Effect<T>): (r: Effect<T>)
    ensures g.Deny? ==> r.store == s && r.reply == Err(g.failure)
    ensures g.Next? ==> r == e
  {
    match g
    case Next => e
    case Deny(f) => Effect(s, Err(f))
  }

  /** `POST /api/admin/login`: a key unequal to the configured one is 401 and
      sets no cookie; otherwise an http-only, one-hour cookie holds the signed token. */
  function AdminLogin(secretKey: Option<string>, configured: Option<string>, signed: string)
    : (r: Reply<SessionCookie>)
    ensures r.Ok? <==> secretKey == configured
    ensures r.Err? ==> r.failure == InvalidSecret
    ensures r.Ok? ==> r.body.token == signed && r.body.name == "admin_token"
                      && r.body.httpOnly && r.body.maxAgeMs == 3600000
  {
    if secretKey != configured then Err(InvalidSecret)
    else Ok(SessionCookie(SessionCookieName, signed, true, SessionMaxAgeMs))
  }

  /** A cookie issued by login passes the gate as long as the verifier accepts its token. */
  lemma LoginThenGate(secretKey: Option<string>, configured: Option<string>, signed: string,
                      verify: string -> bool)
    requires AdminLogin(secretKey, configured, signed).Ok?
    requires signed != "" && verify(signed)
    ensures AdminGate(Some(AdminLogin(secretKey, configured, signed).body.token), verify) == Next
  {
  }

  function Public(a: Account): (e: PublicAccount)
    ensures e.id == a.id && e.email == a.email && e.lastSynced == a.lastSynced
  {
    PublicAccount(a.id, a.email, a.name, a.picture, a.connectedAt, a.expiryDate, a.lastSynced)
  }

  /** `GET /api/admin/users`: one tokenless entry per record, in store order. */
  function PublicList(s: seq<Account>): (r: seq<PublicAccount>)
    ensures |r| == |s|
    ensures forall i :: 0 <= i < |s| ==>
              r[i].id == s[i].id && r[i].email == s[i].email && r[i].name == s[i].name &&
              r[i].picture == s[i].picture && r[i].connectedAt == s[i].connectedAt &&
              r[i].expiryDate == s[i].expiryDate && r[i].lastSynced == s[i].lastSynced
  {
    if s == [] then [] else [Public(s[0])] + PublicList(s[1..])
  }

  // ---------------------------------------------------------------------------
  // Sync

  /** `Date.now() > user.expiryDate`; an absent expiry compares false. */
  predicate Expired(nowMs: int, expiry: Option<int>)
    ensures expiry.None? ==> !Expired(nowMs, expiry)
    ensures expiry == Some(nowMs) ==> !Expired(nowMs, expiry)
    ensures expiry.Some? && expiry.value < nowMs ==> Expired(nowMs, expiry)
  {
    expiry.Some? && nowMs > expiry.value
  }

  /** `response.data.messages ? response.data.messages.length : 0`. */
  function MessageCount(messages: Option<seq<string>>): (n: nat)
    ensures n == 0 <==> messages.None? || messages.value == []
  {
    if messages.Some? then |messages.value| else 0
  }

  /** `POST /api/admin/users/:id/sync` after the gate. */
  function SyncEffect(s: seq<Account>, id: string, nowMs: int, nowIso: string,
                      refresh: Call<Credentials>, listing: Call<Option<seq<string>>>)
    : (e: Effect<SyncReport>)
    // an unknown id is 404 and changes nothing
    ensures IndexOf(s, ById, id) == -1 ==> e == Effect(s, Err(UserNotFound))
    // only the record with that id may change, and never its identity fields
    ensures |e.store| == |s|
    ensures forall j :: 0 <= j < |s| && j != IndexOf(s, ById, id) ==> e.store[j] == s[j]
    ensures forall j :: 0 <= j < |s| ==>
              e.store[j].id == s[j].id && e.store[j].email == s[j].email &&
              e.store[j].name == s[j].name && e.store[j].picture == s[j].picture &&
              e.store[j].refreshToken == s[j].refreshToken &&
              e.store[j].connectedAt == s[j].connectedAt
    ensures var i := IndexOf(s, ById, id);
            0 <= i ==>
              var refreshed := Expired(nowMs, s[i].expiryDate) && refresh.Returned?;
              && (refreshed ==> e.store[i].accessToken == refresh.value.accessToken
                                && e.store[i].expiryDate == refresh.value.expiryDate)
              && (!refreshed ==> e.store[i].accessToken == s[i].accessToken
                                 && e.store[i].expiryDate == s[i].expiryDate)
              && (e.reply.Ok? <==> (!Expired(nowMs, s[i].expiryDate) || refresh.Returned?) && listing.Returned?)
              && (e.reply.Ok? ==> e.store[i].lastSynced == Some(nowIso)
                                  && e.reply.body == SyncReport(MessageCount(listing.value), nowIso))
              && (e.reply.Err? ==> e.store[i].lastSynced == s[i].lastSynced
                                   && e.reply.failure == SyncFailed)
  {
    var i := IndexOf(s, ById, id);
    if i == -1 then Effect(s, Err(UserNotFound))
    else
      var expired := Expired(nowMs, s[i].expiryDate);
      if expired && refresh.Threw? then Effect(s, Err(SyncFailed))
      else
        var a := if expired
                 then s[i].(accessToken := refresh.value.accessToken, expiryDate := refresh.value.expiryDate)
                 else s[i];
        if listing.Threw? then Effect(s[i := a], Err(SyncFailed))
        else Effect(s[i := a.(lastSynced := Some(nowIso))], Ok(SyncReport(MessageCount(listing.value), nowIso)))
  }

  /** The refresh call only matters when the stored expiry has passed. */
  lemma RefreshOnlyWhenExpired(s: seq<Account>, id: string, nowMs: int, nowIso: string,
                               r1: Call<Credentials>, r2: Call<Credentials>,
                               listing: Call<Option<seq<string>>>)
    requires var i := IndexOf(s, ById, id); i == -1 || !Expired(nowMs, s[i].expiryDate)
    ensures SyncEffect(s, id, nowMs, nowIso, r1, listing) == SyncEffect(s, id, nowMs, nowIso, r2, listing)
  {
  }

  /** A listing failure after a refresh keeps the new tokens but not a sync stamp. */
  lemma ListingFailureKeepsRefresh(s: seq<Account>, id: string, nowMs: int, nowIso: string,
                                   c: Credentials, i: nat)
    requires i < |s| && s[i].id == id && Expired(nowMs, s[i].expiryDate)
    requires forall j :: 0 <= j < i ==> s[j].id != id
    ensures var e := SyncEffect(s, id, nowMs, nowIso, Returned(c), Threw);
            e.reply == Err(SyncFailed) && e.store == s[i := s[i].(accessToken := c.accessToken, expiryDate := c.expiryDate)]
  {
    assert IndexOf(s, ById, id) == i;
  }

  /** Syncing keeps ids unique. */
  lemma SyncKeepsIdsUnique(s: seq<Account>, id: string, nowMs: int, nowIso: string,
                           refresh: Call<Credentials>, listing: Call<Option<seq<string>>>)
    requires UniqueIds(s)
    ensures UniqueIds(SyncEffect(s, id, nowMs, nowIso, refresh, listing).store)
  {
  }

  // ---------------------------------------------------------------------------
  // Revoke

  /** `DELETE /api/admin/users/:id` after the gate: 404 for an unknown id;
      otherwise the record at the found position is spliced out and the reply is
      success whether or not the upstream revoke of its access token succeeded. */
  function RevokeEffect(s: seq<Account>, id: string, upstream: string -> bool): (e: Effect<RevokeAck>)
    ensures e.reply.Ok? <==> exists j :: 0 <= j < |s| && s[j].id == id
    ensures e.reply.Err? ==> e == Effect(s, Err(UserNotFound))
    ensures e.reply.Ok? ==> |e.store| == |s| - 1 && multiset(e.store) <= multiset(s)
    ensures e.reply.Ok? ==>
              (e.reply.body.warning == None <==> upstream(s[IndexOf(s, ById, id)].accessToken))
  {
    var i := IndexOf(s, ById, id);
    if i == -1 then Effect(s, Err(UserNotFound))
    else
      var rest := s[..i] + s[i + 1..];
      assert s == s[..i] + [s[i]] + s[i + 1..];
      var ack := if upstream(s[i].accessToken) then RevokeAck(None) else RevokeAck(Some(RevokeWarning));
      Effect(rest, Ok(ack))
  }

  /** With no record carrying `id`, filtering it out changes nothing. */
  lemma {:induction false} WithoutAbsentId(s: seq<Account>, id: string)
    requires forall j :: 0 <= j < |s| ==> s[j].id != id
    ensures WithoutId(s, id) == s
  {
    if s != [] {
      WithoutAbsentId(s[1..], id);
    }
  }

  /** Splicing out the first record with `id` is filtering `id` out, when ids are unique. */
  lemma {:induction false} SpliceIsWithoutId(s: seq<Account>, id: string, i: nat)
    requires UniqueIds(s) && i < |s| && s[i].id == id
    ensures s[..i] + s[i + 1..] == WithoutId(s, id)
  {
    var t := s[1..];
    if i == 0 {
      assert forall j :: 0 <= j < |t| ==> t[j] == s[j + 1];
      WithoutAbsentId(t, id);
      assert s[..0] + s[1..] == t;
    } else {
      assert s[0].id != id;
      assert UniqueIds(t) by {
        forall a, b | 0 <= a < b < |t| ensures t[a].id != t[b].id {
          assert t[a] == s[a + 1] && t[b] == s[b + 1];
        }
      }
      SpliceIsWithoutId(t, id, i - 1);
      calc {
        s[..i] + s[i + 1..];
        { assert s[..i] == [s[0]] + t[..i - 1]; assert s[i + 1..] == t[i..]; }
        [s[0]] + (t[..i - 1] + t[i..]);
        [s[0]] + WithoutId(t, id);
      }
    }
  }

  /** Splicing one position out keeps ids unique. */
  lemma SpliceKeepsIdsUnique(s: seq<Account>, i: nat)
    requires UniqueIds(s) && i < |s|
    ensures UniqueIds(s[..i] + s[i + 1..])
  {
    var r := s[..i] + s[i + 1..];
    forall a, b | 0 <= a < b < |r| ensures r[a].id != r[b].id {
      var a' := if a < i then a else a + 1;
      var b' := if b < i then b else b + 1;
      assert r[a] == s[a'] && r[b] == s[b'];
    }
  }

  /** Revoke removes exactly the record with that id and keeps the others in
      order, whatever the upstream revoke did; ids stay unique. */
  lemma RevokeRemovesExactly(s: seq<Account>, id: string, upstream: string -> bool)
    requires UniqueIds(s) && exists j :: 0 <= j < |s| && s[j].id == id
    ensures RevokeEffect(s, id, upstream).store == WithoutId(s, id)
    ensures UniqueIds(RevokeEffect(s, id, upstream).store)
    ensures forall j :: 0 <= j < |RevokeEffect(s, id, upstream).store| ==>
              RevokeEffect(s, id, upstream).store[j].id != id
  {
    var i := IndexOf(s, ById, id);
    var r := s[..i] + s[i + 1..];
    assert RevokeEffect(s, id, upstream).store == r;
    SpliceIsWithoutId(s, id, i);
    SpliceKeepsIdsUnique(s, i);
    WithoutIdMembers(s, id);
    forall j | 0 <= j < |r| ensures r[j].id != id {
      assert r[j] in WithoutId(s, id);
    }
  }

  /** Revoke is not idempotent: revoking the same id a second time is 404. */
  lemma RevokeTwiceIsNotFound(s: seq<Account>, id: string, u1: string -> bool, u2: string -> bool)
    requires UniqueIds(s) && exists j :: 0 <= j < |s| && s[j].id == id
    ensures RevokeEffect(s, id, u1).reply.Ok?
    ensures RevokeEffect(RevokeEffect(s, id, u1).store, id, u2) ==
            Effect(RevokeEffect(s, id, u1).store, Err(UserNotFound))
  {
    RevokeRemovesExactly(s, id, u1);
  }
}
