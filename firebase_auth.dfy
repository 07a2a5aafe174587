/**
 * The authentication decorator: reading the bearer token from the Authorization header
 * (section 2.1 of RFC 6750, here with the stricter case-sensitive prefix "Bearer " and
 * exactly one space), and finding or creating the local user for the verified uid.
 * Token verification is an input: the uid it decodes or the message it raises.
 */
module FirebaseAuth {
  import opened Wrappers
  import opened Text
  import opened Models

  const BearerPrefix: string := "Bearer "

  /** `auth_header.split('Bearer ')[1]` after the `startswith('Bearer ')` check:
      the text after the prefix up to the next "Bearer " or the end. */
  function ExtractToken(header: Option<string>): (t: Option<string>)
    ensures t.Some? <==> header.Some? && StartsWith(header.value, BearerPrefix)
    ensures t.Some? ==> |BearerPrefix| + |t.value| <= |header.value|
    ensures t.Some? ==> header.value[..|BearerPrefix| + |t.value|] == BearerPrefix + t.value
    ensures t.Some? ==> var rest := header.value[|BearerPrefix| + |t.value|..];
                        rest == "" || StartsWith(rest, BearerPrefix)
    ensures t.Some? ==> !Contains(t.value, BearerPrefix)
  {
    if header.None? || !StartsWith(header.value, BearerPrefix) then None
    else
      var h := header.value;
      var n := |BearerPrefix|;
      var end := match FindFrom(h, BearerPrefix, n) case Some(j) => j case None => |h|;
      NoOccurrenceInside(h, n, end);
      Some(h[n..end])
  }

  /** A slice of `h` holding no start of "Bearer " holds no whole "Bearer " either. */
  lemma NoOccurrenceInside(h: string, from: nat, end: nat)
    requires from <= end <= |h|
    requires forall i :: from <= i < end ==> !StartsWith(h[i..], BearerPrefix)
    ensures !Contains(h[from..end], BearerPrefix)
  {
    var t, m := h[from..end], |BearerPrefix|;
    forall p | 0 <= p <= |t|
      ensures !StartsWith(t[p..], BearerPrefix)
    {
      if p + m <= |t| {
        assert t[p..][..m] == h[from + p..][..m];
      }
    }
  }

  /** A token without "Bearer " inside comes back out of the header built from it. */
  lemma ExtractTokenRoundTrip(t: string)
    requires !Contains(t, BearerPrefix)
    ensures ExtractToken(Some(BearerPrefix + t)) == Some(t)
  {
    var h := BearerPrefix + t;
    var n := |BearerPrefix|;
    assert StartsWith(h, BearerPrefix);
    forall i | n <= i <= |h|
      ensures !StartsWith(h[i..], BearerPrefix)
    {
      assert h[i..] == t[i - n..];
    }
    assert FindFrom(h, BearerPrefix, n).None?;
    assert h != "";
    assert h[n..|h|] == t;
  }

  /** The prefix is case-sensitive and needs its one space. */
  lemma ExtractTokenStrict()
    ensures ExtractToken(None) == None
    ensures ExtractToken(Some("bearer abc")) == None
    ensures ExtractToken(Some("Bearer  abc")) == Some(" abc")
    ensures ExtractToken(Some("Bearerabc")) == None
  {
    assert !StartsWith("bearer abc", BearerPrefix) by { assert "bearer abc"[0] == 'b'; }
    assert !StartsWith("Bearerabc", BearerPrefix) by { assert "Bearerabc"[6] == 'a'; }
    assert BearerPrefix + " abc" == "Bearer  abc";
    ExtractTokenRoundTrip(" abc");
  }

  predicate UidsDistinct(users: seq<User>) {
    forall i, j :: 0 <= i < j < |users| ==> users[i].firebaseUid != users[j].firebaseUid
  }

  /** `User.query.filter_by(firebase_uid=uid).first()`, as a position. */
  function FindByUid(users: seq<User>, uid: string): (r: Option<nat>)
    ensures r.Some? ==> r.value < |users| && users[r.value].firebaseUid == uid
    ensures r.Some? ==> forall i :: 0 <= i < r.value ==> users[i].firebaseUid != uid
    ensures r.None? ==> forall i :: 0 <= i < |users| ==> users[i].firebaseUid != uid
  {
    if users == [] then None
    else if users[0].firebaseUid == uid then Some(0)
    else match FindByUid(users[1..], uid)
      case None => None
      case Some(i) => Some(i + 1)
  }

  /** `get_or_create_user`. */
  method GetOrCreateUser(db: Database, uid: string) returns (user: User)
    modifies db`users, db`nextUserId
    ensures user.firebaseUid == uid && user in db.users
    ensures FindByUid(old(db.users), uid).Some? ==>
      && user == old(db.users)[FindByUid(old(db.users), uid).value]
      && db.users == old(db.users) && db.nextUserId == old(db.nextUserId)
    ensures FindByUid(old(db.users), uid).None? ==>
      && user == User(old(db.nextUserId), uid, None, None)
      && db.users == old(db.users) + [user] && db.nextUserId == old(db.nextUserId) + 1
    ensures UidsDistinct(old(db.users)) ==> UidsDistinct(db.users)
  {
    var found := FindByUid(db.users, uid);
    if found.Some? {
      user := db.users[found.value];
    } else {
      user := User(db.nextUserId, uid, None, None);
      db.users := db.users + [user];
      db.nextUserId := db.nextUserId + 1;
    }
  }

  /** Calling `get_or_create_user` twice returns the same user and adds at most one row. */
  method GetOrCreateUserTwice(db: Database, uid: string) returns (first: User, second: User)
    modifies db`users, db`nextUserId
    ensures first == second
    ensures |old(db.users)| <= |db.users| <= |old(db.users)| + 1
    ensures old(db.users) <= db.users
  {
    first := GetOrCreateUser(db, uid);
    ghost var between := db.users;
    assert FindByUid(between, uid).Some?;
    var k := FindByUid(between, uid).value;
    assert between[k] == first by {
      if FindByUid(old(db.users), uid).None? {
        assert forall i :: 0 <= i < |old(db.users)| ==> between[i].firebaseUid != uid;
      }
    }
    second := GetOrCreateUser(db, uid);
  }

  /** What token verification did: decoded a uid, or raised. */
  datatype VerifyOutcome = Decoded(uid: string) | VerifyFailed(message: string)

  /** What the wrapped handler did: returned a reply, or raised. */
  datatype HandlerOutcome = Returned(reply: Reply) | Raised(message: string)

  function Unauthorized(message: string): Reply {
    Reply(401, map["error" := message])
  }

  /** `firebase_auth_required` around `handler`. `verify` is the verifier's answer for each
      token; `lookupFails` says that the user lookup or its commit raised. `calledWith` is
      the user the handler ran for, if it ran. An exception raised by the handler is caught
      by the same clause as a verification failure. */
  method FirebaseAuthRequired(db: Database, header: Option<string>, verify: string -> VerifyOutcome,
                              lookupFails: bool, handler: User -> HandlerOutcome)
    returns (reply: Reply, calledWith: Option<User>)
    modifies db`users, db`nextUserId
    ensures ExtractToken(header).None? ==>
      reply == Unauthorized("No token provided") && calledWith.None?
    ensures calledWith.Some? <==>
      ExtractToken(header).Some? && verify(ExtractToken(header).value).Decoded? && !lookupFails
    ensures calledWith.None? ==>
      reply.status == 401 && db.users == old(db.users) && db.nextUserId == old(db.nextUserId)
    ensures ExtractToken(header).Some? && calledWith.None? ==> reply == Unauthorized("Invalid token")
    ensures calledWith.Some? ==>
      && calledWith.value.firebaseUid == verify(ExtractToken(header).value).uid
      && calledWith.value in db.users
      && reply == match handler(calledWith.value)
                  case Returned(r) => r
                  case Raised(_) => Unauthorized("Invalid token")
    ensures calledWith.Some? && FindByUid(old(db.users), calledWith.value.firebaseUid).Some? ==>
              db.users == old(db.users) && db.nextUserId == old(db.nextUserId)
    ensures calledWith.Some? && FindByUid(old(db.users), calledWith.value.firebaseUid).None? ==>
              db.users == old(db.users) + [calledWith.value] && db.nextUserId == old(db.nextUserId) + 1
    ensures UidsDistinct(old(db.users)) ==> UidsDistinct(db.users)
  {
    var token := ExtractToken(header);
    if token.None? {
      return Unauthorized("No token provided"), None;
    }
    var decoded := verify(token.value);
    if decoded.VerifyFailed? || lookupFails {
      return Unauthorized("Invalid token"), None;
    }
    var user := GetOrCreateUser(db, decoded.uid);
    calledWith := Some(user);
    match handler(user)
    case Returned(r) => reply := r;
    case Raised(_) => reply := Unauthorized("Invalid token");
  }
}
