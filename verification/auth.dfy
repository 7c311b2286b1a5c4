/** The authentication middleware in front of the admin routes: it checks
    the `Authorization` header's scheme, cuts the token out of it, and hands
    the token to the identity provider, which is a collaborator here. */
module Auth {
  import opened Common
  import opened Http

  /** The case-sensitive scheme prefix, including its trailing space. */
  const BearerPrefix := "Bearer "

  /** The part of `s` before the first occurrence of `sep`, or all of `s`
      when `sep` does not occur. */
  function TakeUntil(s: string, sep: string): (t: string)
    requires sep != ""
    ensures t <= s
    decreases |s|
  {
    if |s| == 0 || StartsWith(s, sep) then ""
    else [s[0]] + TakeUntil(s[1..], sep)
  }

  /** `t` is the first field of `s.split(sep)`: a prefix of `s` in which no
      occurrence of `sep` starts, followed in `s` by `sep` or by nothing. */
  ghost predicate IsFirstSegment(s: string, sep: string, t: string) {
    && t <= s
    && (forall i :: 0 <= i < |t| ==> !StartsWith(s[i..], sep))
    && (|t| == |s| || StartsWith(s[|t|..], sep))
  }

  lemma {:induction false} TakeUntilIsFirstSegment(s: string, sep: string)
    requires sep != ""
    ensures IsFirstSegment(s, sep, TakeUntil(s, sep))
    decreases |s|
  {
    if |s| == 0 || StartsWith(s, sep) {
      assert s[0..] == s;
    } else {
      var t1 := TakeUntil(s[1..], sep);
      TakeUntilIsFirstSegment(s[1..], sep);
      var t := TakeUntil(s, sep);
      assert t == [s[0]] + t1;
      forall i | 0 <= i < |t|
        ensures !StartsWith(s[i..], sep)
      {
        if i > 0 {
          assert s[i..] == s[1..][i - 1..];
        } else {
          assert s[0..] == s;
        }
      }
      if |t| < |s| {
        assert s[|t|..] == s[1..][|t1|..];
      }
    }
  }

  lemma {:induction false} FirstSegmentUnique(s: string, sep: string, t: string)
    requires sep != ""
    requires IsFirstSegment(s, sep, t)
    ensures t == TakeUntil(s, sep)
    decreases |s|
  {
    if |s| > 0 {
      assert s[0..] == s;
      if !StartsWith(s, sep) && |t| > 0 {
        var t1 := t[1..];
        assert t == [s[0]] + t1;
        forall i | 0 <= i < |t1|
          ensures !StartsWith(s[1..][i..], sep)
        {
          assert s[1..][i..] == s[i + 1..];
        }
        if |t1| < |s[1..]| {
          assert s[1..][|t1|..] == s[|t|..];
        }
        FirstSegmentUnique(s[1..], sep, t1);
      }
    }
  }

  /** `authHeader.split('Bearer ')[1]` for a header known to start with the
      prefix: the text after the prefix up to its next occurrence. */
  function BearerToken(header: string): (token: string)
    requires StartsWith(header, BearerPrefix)
    ensures IsFirstSegment(header[|BearerPrefix|..], BearerPrefix, token)
  {
    TakeUntilIsFirstSegment(header[|BearerPrefix|..], BearerPrefix);
    TakeUntil(header[|BearerPrefix|..], BearerPrefix)
  }

  /** For the usual header, `"Bearer " + token` with no second prefix inside
      the token, the token comes back whole. */
  lemma PlainBearerHeader(token: string)
    requires forall i :: 0 <= i < |token| ==> !StartsWith(token[i..], BearerPrefix)
    ensures BearerToken(BearerPrefix + token) == token
  {
    var header := BearerPrefix + token;
    assert header[..|BearerPrefix|] == BearerPrefix;
    assert header[|BearerPrefix|..] == token;
    assert token[|token|..] == "";
    FirstSegmentUnique(token, BearerPrefix, token);
  }

  datatype AuthOutcome = Reject(response: Response) | Proceed(userId: string)

  /** `authMiddleware`: `Proceed` is the single call to `next` with the
      request's `userId` set; `Reject` answers 401 without calling it. */
  function Authenticate(header: Option<string>, verifyIdToken: string -> Option<string>): (r: AuthOutcome)
    ensures r.Reject? ==> r.response.status == Unauthorized
    ensures header.None? || !StartsWith(header.value, BearerPrefix) ==>
              r == Reject(Error(Unauthorized, "Unauthorized: Missing or invalid token"))
    ensures header.Some? && StartsWith(header.value, BearerPrefix) ==>
              var verdict := verifyIdToken(BearerToken(header.value));
              && (verdict.None? ==> r == Reject(Error(Unauthorized, "Unauthorized: Invalid token")))
              && (verdict.Some? ==> r == Proceed(verdict.value))
  {
    if header.None? || !StartsWith(header.value, BearerPrefix) then
      Reject(Error(Unauthorized, "Unauthorized: Missing or invalid token"))
    else
      match verifyIdToken(BearerToken(header.value))
      case None => Reject(Error(Unauthorized, "Unauthorized: Invalid token"))
      case Some(uid) => Proceed(uid)
  }
}
