/** The bearer-token guard placed in front of every protected route: it reads
    the Authorization header, takes the token out of it, asks the token
    verifier for the identity inside, and either lets the request through
    with that identity or answers 401. */
module AuthMiddleware {
  import opened Http

  const BEARER: string := "Bearer "
  const NO_TOKEN: string := "Access denied. No token provided."
  const INVALID_TOKEN: string := "Invalid token."

  /** The middleware's two outcomes: reply 401 without calling `next`, or
      set `req.user` and call `next` once without replying. */
  datatype Verdict = Reject(error: Error) | Accept(user: Identity)

  /** JavaScript's `s.split(sep)`: the pieces between separators, empty ones included. */
  function Split(s: string, sep: char): (pieces: seq<string>)
    ensures |pieces| >= 1
    ensures forall i :: 0 <= i < |pieces| ==> sep !in pieces[i]
  {
    if |s| == 0 then [""]
    else if s[0] == sep then [""] + Split(s[1..], sep)
    else
      var rest := Split(s[1..], sep);
      [[s[0]] + rest[0]] + rest[1..]
  }

  /** The longest prefix of `s` that holds no `sep`. */
  function TakeUntil(s: string, sep: char): (w: string)
    ensures w <= s && sep !in w
    ensures |w| < |s| ==> s[|w|] == sep
  {
    if |s| == 0 || s[0] == sep then [] else [s[0]] + TakeUntil(s[1..], sep)
  }

  /** The first piece of a split runs up to the first separator. */
  lemma {:induction false} SplitHead(s: string, sep: char)
    ensures Split(s, sep)[0] == TakeUntil(s, sep)
  {
    if |s| > 0 && s[0] != sep {
      SplitHead(s[1..], sep);
    }
  }

  /** A word free of separators followed by one separator is the first piece. */
  lemma {:induction false} SplitAfterWord(w: string, sep: char, rest: string)
    requires sep !in w
    ensures Split(w + [sep] + rest, sep) == [w] + Split(rest, sep)
  {
    var s := w + [sep] + rest;
    if |w| == 0 {
      assert s[0] == sep && s[1..] == rest;
    } else {
      assert s[0] == w[0] && s[1..] == w[1..] + [sep] + rest;
      SplitAfterWord(w[1..], sep, rest);
      assert [w[0]] + w[1..] == w;
    }
  }

  /** `header.split(' ')[1]` for a header that starts with "Bearer ": it has at
      least two pieces and the second one is what follows the prefix up to the
      next space. */
  lemma BearerSplit(header: string)
    requires BEARER <= header
    ensures |Split(header, ' ')| >= 2
    ensures Split(header, ' ')[1] == TakeUntil(header[|BEARER|..], ' ')
  {
    var rest := header[|BEARER|..];
    assert header == "Bearer" + [' '] + rest;
    SplitAfterWord("Bearer", ' ', rest);
    SplitHead(rest, ' ');
  }

  /** The token handed to the verifier (api/middleware/authMiddleware.ts:17). */
  function TokenOf(header: string): (token: string)
    requires BEARER <= header
    ensures token == TakeUntil(header[|BEARER|..], ' ')
    ensures ' ' !in token
  {
    BearerSplit(header);
    Split(header, ' ')[1]
  }

  /** The middleware. A missing header is `None`; `verify` stands for
      `jwt.verify` with the server's secret, `None` meaning that it threw. */
  function Authenticate(header: Option<string>, verify: string -> Option<Identity>): (r: Verdict)
    ensures r.Accept? <==> header.Some? && BEARER <= header.value && verify(TokenOf(header.value)).Some?
    ensures r.Accept? ==> r.user == verify(TokenOf(header.value)).value
    ensures r.Reject? ==> r.error.Code() == 401
    ensures header.None? || !(BEARER <= header.value) ==> r == Reject(Unauthorized(NO_TOKEN))
    ensures header.Some? && BEARER <= header.value && verify(TokenOf(header.value)).None?
            ==> r == Reject(Unauthorized(INVALID_TOKEN))
  {
    if header.None? || !(BEARER <= header.value) then
      Reject(Unauthorized(NO_TOKEN))
    else
      match verify(TokenOf(header.value))
      case None => Reject(Unauthorized(INVALID_TOKEN))
      case Some(decoded) => Accept(decoded)
  }

  /** A header written as "Bearer " + token, for a token without spaces,
      hands exactly that token to the verifier. */
  lemma {:induction false} TokenRoundTrip(token: string)
    requires ' ' !in token
    ensures TokenOf(BEARER + token) == token
  {
    var header := BEARER + token;
    assert header[|BEARER|..] == token;
    TakeUntilWhole(token, ' ');
  }

  lemma {:induction false} TakeUntilWhole(s: string, sep: char)
    requires sep !in s
    ensures TakeUntil(s, sep) == s
  {
    if |s| > 0 {
      assert s[0] != sep;
      TakeUntilWhole(s[1..], sep);
    }
  }

  /** A second space after the prefix hands the verifier the empty string. */
  lemma ExtraSpaceGivesEmptyToken()
    ensures TokenOf("Bearer  x") == ""
  {
    var header := "Bearer  x";
    assert header[|BEARER|..] == " x";
  }

  /** A header with any other scheme gets the same reply as no header at all. */
  lemma WrongSchemeIsMissingToken(header: string, verify: string -> Option<Identity>)
    requires !(BEARER <= header)
    ensures Authenticate(Some(header), verify) == Authenticate(None, verify)
  {
  }
}
