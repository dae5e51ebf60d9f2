/**
 * The authentication gate placed in front of the place-changing routes.
 * A pre-flight (OPTIONS) request passes untouched; any other request must
 * carry `Authorization: <scheme> <token>`, and the token must verify under
 * the signing key.  Every failure is the same 403.
 */
module Auth {
  import opened Wrappers
  import opened Store
  import opened Http

  /** The claims the token service signs and gives back on verification. */
  datatype TokenPayload = TokenPayload(userId: Id, email: string)

  /** What the gate attaches to the request: `req.userData`. */
  datatype UserData = UserData(userId: Id)

  datatype AuthDecision =
    | Pass                              // next() with no userData
    | Authenticated(userData: UserData) // userData set, then next()
    | Rejected(error: HttpError)        // next(error)

  const AuthFailed := HttpError("Authentication failed!", 403)

  /**
   * JavaScript's `s.split(sep)` for a one-character separator: the maximal
   * runs between separators, empty ones included, so there is always one
   * more field than there are separators.
   */
  function Split(s: string, sep: char): (fields: seq<string>)
    ensures |fields| >= 1
    ensures (|fields| == 1) == (sep !in s)
    ensures forall i :: 0 <= i < |fields| ==> sep !in fields[i]
  {
    if s == [] then [""]
    else
      var rest := Split(s[1..], sep);
      if s[0] == sep then [""] + rest
      else [[s[0]] + rest[0]] + rest[1..]
  }

  /** The inverse of `Split`: the fields with one separator between neighbours. */
  function Join(fields: seq<string>, sep: char): (s: string)
    requires |fields| >= 1
  {
    fields[0] + if |fields| == 1 then "" else [sep] + Join(fields[1..], sep)
  }

  lemma {:induction false} JoinSplit(s: string, sep: char)
    ensures Join(Split(s, sep), sep) == s
  {
    if s != [] {
      var rest := Split(s[1..], sep);
      JoinSplit(s[1..], sep);
      if s[0] == sep {
        assert ([""] + rest)[1..] == rest;
      } else {
        var fields := [[s[0]] + rest[0]] + rest[1..];
        if |rest| > 1 {
          assert fields[1..] == rest[1..];
        }
        assert Join(fields, sep) == [s[0]] + Join(rest, sep);
        assert s == [s[0]] + s[1..];
      }
    }
  }

  lemma {:induction false} SplitWithoutSeparator(w: string, sep: char)
    requires sep !in w
    ensures Split(w, sep) == [w]
  {
    if w != [] {
      SplitWithoutSeparator(w[1..], sep);
      assert w == [w[0]] + w[1..];
    }
  }

  lemma {:induction false} SplitAfterField(w: string, t: string, sep: char)
    requires sep !in w
    ensures Split(w + [sep] + t, sep) == [w] + Split(t, sep)
  {
    if w == [] {
      assert w + [sep] + t == [sep] + t;
      assert ([sep] + t)[1..] == t;
    } else {
      var s := w + [sep] + t;
      assert s[0] == w[0] && s[1..] == w[1..] + [sep] + t;
      SplitAfterField(w[1..], t, sep);
      assert w == [w[0]] + w[1..];
    }
  }

  lemma {:induction false} SplitJoin(fields: seq<string>, sep: char)
    requires |fields| >= 1
    requires forall i :: 0 <= i < |fields| ==> sep !in fields[i]
    ensures Split(Join(fields, sep), sep) == fields
  {
    var head := fields[0];
    assert sep !in head;
    if |fields| == 1 {
      assert Join(fields, sep) == head;
      SplitWithoutSeparator(head, sep);
    } else {
      var tail := fields[1..];
      assert forall i :: 0 <= i < |tail| ==> sep !in tail[i] by {
        forall i | 0 <= i < |tail| ensures sep !in tail[i] {
          assert tail[i] == fields[i + 1];
        }
      }
      var joined := Join(tail, sep);
      SplitJoin(tail, sep);
      assert Join(fields, sep) == head + [sep] + joined;
      SplitAfterField(head, joined, sep);
      assert [head] + tail == fields;
    }
  }

  /** `authorization.split(" ")[1]`: the second space-separated field, if there is one. */
  function TokenOf(authorization: string): (t: Option<string>)
    ensures t.Some? <==> ' ' in authorization
    ensures t.Some? ==> ' ' !in t.value
  {
    var fields := Split(authorization, ' ');
    if |fields| > 1 then Some(fields[1]) else None
  }

  /** A header `<scheme> <token>` whose parts hold no space yields exactly that token. */
  lemma BearerToken(scheme: string, token: string)
    requires ' ' !in scheme && ' ' !in token
    ensures TokenOf(scheme + " " + token) == Some(token)
  {
    SplitAfterField(scheme, token, ' ');
    SplitWithoutSeparator(token, ' ');
  }

  /** A doubled space after the scheme yields the empty token. */
  lemma DoubledSpaceGivesEmptyToken(scheme: string, rest: string)
    requires ' ' !in scheme
    ensures TokenOf(scheme + "  " + rest) == Some("")
  {
    assert scheme + "  " + rest == scheme + [' '] + (" " + rest);
    SplitAfterField(scheme, " " + rest, ' ');
    SplitAfterField("", rest, ' ');
    assert "" + [' '] + rest == " " + rest;
  }

  /**
   * The gate's decision for a request with the given method (`verb`) and
   * Authorization header, under signing key `key`; `verify` stands for the
   * token service (None: it threw).
   */
  function CheckAuth(verb: string, authorization: Option<string>, key: string,
                     verify: (string, string) -> Option<TokenPayload>): (d: AuthDecision)
    ensures d.Pass? <==> verb == "OPTIONS"
    ensures d.Rejected? ==> d.error == AuthFailed
    ensures verb != "OPTIONS" && (authorization.None? || TokenOf(authorization.value) in {None, Some("")})
            ==> d == Rejected(AuthFailed)
    ensures d.Authenticated? <==>
            && verb != "OPTIONS"
            && authorization.Some?
            && TokenOf(authorization.value).Some?
            && TokenOf(authorization.value).value != ""
            && verify(TokenOf(authorization.value).value, key).Some?
    ensures d.Authenticated? ==>
            d.userData.userId == verify(TokenOf(authorization.value).value, key).value.userId
  {
    if verb == "OPTIONS" then Pass
    else if authorization.None? then Rejected(AuthFailed)   // undefined.split throws
    else match TokenOf(authorization.value)
      case None => Rejected(AuthFailed)
      case Some(token) =>
        if token == "" then Rejected(AuthFailed)
        else match verify(token, key)
          case None => Rejected(AuthFailed)
          case Some(decoded) => Authenticated(UserData(decoded.userId))
  }

  /** A well-formed header whose token verifies authenticates as the token's user. */
  lemma WellFormedHeaderAuthenticates(verb: string, scheme: string, token: string, key: string,
                                      verify: (string, string) -> Option<TokenPayload>)
    requires verb != "OPTIONS"
    requires ' ' !in scheme && ' ' !in token && token != ""
    requires verify(token, key).Some?
    ensures CheckAuth(verb, Some(scheme + " " + token), key, verify)
            == Authenticated(UserData(verify(token, key).value.userId))
  {
    BearerToken(scheme, token);
  }

  /** `"Bearer  x"` (two spaces) is refused even when the token service would accept anything. */
  lemma DoubledSpaceRejected(verb: string, scheme: string, rest: string, key: string,
                             verify: (string, string) -> Option<TokenPayload>)
    requires verb != "OPTIONS" && ' ' !in scheme
    ensures CheckAuth(verb, Some(scheme + "  " + rest), key, verify) == Rejected(AuthFailed)
  {
    DoubledSpaceGivesEmptyToken(scheme, rest);
  }
}
