/** The bearer-token gate of middleware/check-auth.js: a pre-flight request
    passes untouched; every other request must carry an `Authorization`
    header whose second space-separated segment is a token the verifier
    accepts, else it fails with 403 and one fixed message. */
module Auth {
  import opened Wrappers
  import opened Users

  /** The one message every failure carries, whatever the cause. */
  const AuthFailedMessage: string := "Authentication Failed!"
  const Forbidden: int := 403

  datatype Gate =
    | Bypass                                   // `next()` without `userData`
    | Pass(userId: Id)                         // `userData = { userId }`, then `next()`
    | Reject(status: int, message: string)     // `next(new HttpError(...))`

  /** JavaScript's `s.split(' ')`: the pieces between single spaces, so two
      adjacent spaces give an empty piece and the result is never empty. */
  function Split(s: string): (r: seq<string>)
    ensures |r| >= 1
    ensures forall k :: 0 <= k < |r| ==> ' ' !in r[k]
    ensures |r| == 1 <==> ' ' !in s
  {
    if s == [] then [""]
    else
      var rest := Split(s[1..]);
      if s[0] == ' ' then [""] + rest
      else [[s[0]] + rest[0]] + rest[1..]
  }

  /** The inverse of `Split`: the pieces glued back with single spaces. */
  function Join(segs: seq<string>): (s: string)
    requires |segs| >= 1
    ensures |segs| == 1 ==> s == segs[0]
  {
    if |segs| == 1 then segs[0] else segs[0] + " " + Join(segs[1..])
  }

  /** Index of the first space. */
  function FirstSpace(s: string): (i: nat)
    requires ' ' in s
    ensures i < |s| && s[i] == ' ' && ' ' !in s[..i]
  {
    if s[0] == ' ' then 0
    else
      assert ' ' in s[1..] by { var j :| 0 <= j < |s| && s[j] == ' '; assert s[1..][j - 1] == ' '; }
      var j := FirstSpace(s[1..]);
      assert s[..j + 1] == [s[0]] + s[1..][..j];
      j + 1
  }

  /** The token as this middleware reads it, stated without `Split`: what
      follows the first space, up to the next space or the end. No header
      without a space has a token. Section 2.1 of RFC 6750 fixes the scheme
      word to "Bearer" and allows one or more spaces before the token; the
      middleware honours neither. */
  function BearerToken(h: string): (t: Option<string>)
    ensures t.Some? <==> ' ' in h
  {
    if ' ' !in h then None
    else
      var rest := h[FirstSpace(h) + 1..];
      Some(if ' ' in rest then rest[..FirstSpace(rest)] else rest)
  }

  /** `authorization.split(' ')[1]`: `undefined` when there is no second
      segment. */
  function SecondSegment(h: string): (r: Option<string>)
    ensures r.Some? <==> ' ' in h
    ensures r.Some? ==> ' ' !in r.value
  {
    var segs := Split(h);
    if |segs| >= 2 then Some(segs[1]) else None
  }

  /** The first piece of `Split` is everything before the first space, and
      the remaining pieces are the split of what follows it. */
  lemma {:induction false} SplitAtFirstSpace(s: string)
    requires ' ' in s
    ensures Split(s) == [s[..FirstSpace(s)]] + Split(s[FirstSpace(s) + 1..])
  {
    if s[0] != ' ' {
      var t := s[1..];
      assert ' ' in t by { var j :| 0 <= j < |s| && s[j] == ' '; assert t[j - 1] == ' '; }
      SplitAtFirstSpace(t);
      assert FirstSpace(s) == FirstSpace(t) + 1;
      assert s[..FirstSpace(s)] == [s[0]] + t[..FirstSpace(t)];
      assert s[FirstSpace(s) + 1..] == t[FirstSpace(t) + 1..];
    }
  }

  /** With no space at all, `Split` leaves the string whole. */
  lemma {:induction false} SplitNoSpace(s: string)
    requires ' ' !in s
    ensures Split(s) == [s]
  {
    if s != [] {
      assert ' ' !in s[1..] by {
        forall k | 0 <= k < |s[1..]| ensures s[1..][k] != ' ' { assert s[1..][k] == s[k + 1]; }
      }
      SplitNoSpace(s[1..]);
      assert [s[0]] + s[1..] == s;
    }
  }

  /** Gluing one more piece in front. */
  lemma JoinCons(a: string, segs: seq<string>)
    requires |segs| >= 1
    ensures Join([a] + segs) == a + " " + Join(segs)
  {
    assert ([a] + segs)[1..] == segs;
  }

  /** Cutting a string around one of its spaces and gluing it back. */
  lemma CutAtSpace(s: string, i: nat)
    requires i < |s| && s[i] == ' '
    ensures s[..i] + " " + s[i + 1..] == s
  {
    assert " " == [s[i]];
    assert s[..i] + [s[i]] == s[..i + 1];
  }

  /** Splitting and joining again gives back the header unchanged. */
  lemma {:induction false} JoinSplit(s: string)
    ensures Join(Split(s)) == s
  {
    if ' ' !in s {
      SplitNoSpace(s);
    } else {
      var i := FirstSpace(s);
      var head, tail := s[..i], s[i + 1..];
      SplitAtFirstSpace(s);
      JoinSplit(tail);
      JoinCons(head, Split(tail));
      CutAtSpace(s, i);
    }
  }

  /** The segment the middleware reads is exactly the bearer token. */
  lemma SecondSegmentIsBearerToken(h: string)
    ensures SecondSegment(h) == BearerToken(h)
  {
    if ' ' in h {
      var rest := h[FirstSpace(h) + 1..];
      SplitAtFirstSpace(h);
      if ' ' in rest {
        SplitAtFirstSpace(rest);
      } else {
        SplitNoSpace(rest);
      }
    }
  }

  function Rejected(): (g: Gate) {
    Reject(Forbidden, AuthFailedMessage)
  }

  /** The middleware. `authorization` is `req.headers.authorization`
      (`None` when the header is absent, where `.split` throws); `verify`
      stands for `jwt.verify` with the server's secret and answers with the
      `userId` of a token it accepts. */
  function CheckAuth(verb: string, authorization: Option<string>,
                     verify: string -> Option<Id>): (r: Gate)
    ensures r.Bypass? <==> verb == "OPTIONS"
    ensures r.Pass? <==>
      && verb != "OPTIONS"
      && authorization.Some?
      && BearerToken(authorization.value).Some?
      && BearerToken(authorization.value).value != ""
      && verify(BearerToken(authorization.value).value).Some?
    ensures r.Pass? ==> r.userId == verify(BearerToken(authorization.value).value).value
    ensures r.Reject? ==> r == Reject(403, "Authentication Failed!")
  {
    if verb == "OPTIONS" then Bypass
    else match authorization
      case None => Rejected()
      case Some(h) =>
        SecondSegmentIsBearerToken(h);
        match SecondSegment(h)
        case None => Rejected()
        case Some(token) =>
          if token == "" then Rejected()
          else match verify(token)
            case None => Rejected()
            case Some(userId) => Pass(userId)
  }

  /** The scheme word is never inspected: any word without a space, followed
      by one space and a token the verifier accepts, is let through. */
  lemma SchemeNotChecked(verb: string, scheme: string, token: string,
                         verify: string -> Option<Id>)
    requires verb != "OPTIONS"
    requires ' ' !in scheme && ' ' !in token && token != ""
    requires verify(token).Some?
    ensures CheckAuth(verb, Some(scheme + " " + token), verify) == Pass(verify(token).value)
  {
    var h := scheme + " " + token;
    assert h[|scheme|] == ' ';
    assert h[..|scheme|] == scheme;
    assert FirstSpace(h) == |scheme|;
    assert h[|scheme| + 1..] == token;
  }

  /** A scheme word alone, a scheme word followed by one space, and a scheme
      word followed by two spaces all leave the token empty or missing, so
      the request is rejected whatever follows. */
  lemma EmptyTokenRejected(verb: string, scheme: string, rest: string,
                           verify: string -> Option<Id>)
    requires verb != "OPTIONS"
    requires ' ' !in scheme
    ensures CheckAuth(verb, Some(scheme), verify) == Rejected()
    ensures CheckAuth(verb, Some(scheme + " "), verify) == Rejected()
    ensures CheckAuth(verb, Some(scheme + "  " + rest), verify) == Rejected()
  {
    var h1 := scheme + " ";
    assert h1[|scheme|] == ' ' && h1[..|scheme|] == scheme;
    assert FirstSpace(h1) == |scheme|;
    assert h1[|scheme| + 1..] == "";
    var h2 := scheme + "  " + rest;
    assert h2[|scheme|] == ' ' && h2[..|scheme|] == scheme;
    assert FirstSpace(h2) == |scheme|;
    var tail := h2[|scheme| + 1..];
    assert tail[0] == ' ';
    assert FirstSpace(tail) == 0;
  }

  /** Four malformed headers, all rejected. */
  lemma MalformedBearerHeaders(verb: string, verify: string -> Option<Id>)
    requires verb != "OPTIONS"
    ensures CheckAuth(verb, None, verify) == Rejected()
    ensures CheckAuth(verb, Some("Bearer"), verify) == Rejected()
    ensures CheckAuth(verb, Some("Bearer "), verify) == Rejected()
    ensures CheckAuth(verb, Some("Bearer  x"), verify) == Rejected()
  {
    var scheme := "Bearer";
    assert ' ' !in scheme by {
      forall k | 0 <= k < |scheme| ensures scheme[k] != ' ' { }
    }
    EmptyTokenRejected(verb, scheme, "x", verify);
    assert scheme + " " == "Bearer ";
    assert scheme + "  " + "x" == "Bearer  x";
  }
}
