/**
 The `verifyJWT` middleware: a request without an `Authorization` header is refused
 before any token check; otherwise the token is the second word of the header split
 on single spaces, and the wrapped handler runs only if the token verifies. Token
 verification (signature, secret, expiry) is a parameter: a function from the token
 to the decoded claims, or None when the token does not verify.
 */
module Gate {
  import opened Wrappers
  import opened Values

  /** The decoded token payload. */
  type Claims = map<string, Value>

  /** The token check the JSON Web Token library performs with the server's secret. */
  type Verifier = string -> Option<Claims>

  datatype Auth = Denied | Granted(claims: Claims)

  /** Glues words back together with `sep` between them: the inverse of `Split`. */
  function Join(parts: seq<string>, sep: char): string
    requires |parts| >= 1
  {
    if |parts| == 1 then parts[0] else parts[0] + [sep] + Join(parts[1..], sep)
  }

  /** `s.split(sep)` on a one-character separator: every piece, empty ones included. */
  function Split(s: string, sep: char): (parts: seq<string>)
    ensures |parts| >= 1
    ensures Join(parts, sep) == s
    ensures forall i :: 0 <= i < |parts| ==> sep !in parts[i]
  {
    if s == [] then [""]
    else
      var rest := Split(s[1..], sep);
      if s[0] == sep then
        assert s == [] + [sep] + Join(rest, sep);
        [""] + rest
      else
        assert s == ([s[0]] + rest[0]) + (if |rest| == 1 then [] else [sep] + Join(rest[1..], sep));
        [[s[0]] + rest[0]] + rest[1..]
  }

  /**
   `authorization.split(' ')[1]`: None stands for `undefined` when there is no space.
   The token is the second piece of the header split on single spaces.
   */
  function Token(header: string): (t: Option<string>)
    ensures t.Some? <==> ' ' in header
    ensures t.Some? ==> ' ' !in t.value
    ensures t.Some? <==> |Split(header, ' ')| >= 2
    ensures t.Some? ==> t.value == Split(header, ' ')[1]
  {
    var parts := Split(header, ' ');
    SplitSingle(header, ' ');
    if |parts| >= 2 then
      Some(parts[1])
    else None
  }

  /** Splitting has one piece exactly when there is no separator. */
  lemma {:induction false} SplitSingle(s: string, sep: char)
    ensures |Split(s, sep)| == 1 <==> sep !in s
  {
    if s != [] {
      SplitSingle(s[1..], sep);
    }
  }

  /** Splitting a word, a separator and the rest gives the word, then the pieces of the rest. */
  lemma {:induction false} SplitAfterWord(w: string, sep: char, rest: string)
    requires sep !in w
    ensures Split(w + [sep] + rest, sep) == [w] + Split(rest, sep)
  {
    if w == [] {
      assert [] + [sep] + rest == [sep] + rest;
      assert ([sep] + rest)[1..] == rest;
    } else {
      var s := w + [sep] + rest;
      assert s[0] == w[0] && s[1..] == w[1..] + [sep] + rest;
      SplitAfterWord(w[1..], sep, rest);
      assert [w[0]] + w[1..] == w;
    }
  }

  /**
   For a header `<scheme> <token>`, possibly followed by more space-separated text, the
   token checked is exactly `<token>`.
   */
  lemma BearerToken(scheme: string, token: string, rest: string)
    requires ' ' !in scheme && ' ' !in token
    requires rest == [] || rest[0] == ' '
    ensures Token(scheme + " " + token + rest) == Some(token)
  {
    assert scheme + " " + token + rest == scheme + [' '] + (token + rest);
    SplitAfterWord(scheme, ' ', token + rest);
    if rest == [] {
      assert token + rest == token;
      SplitSingle(token, ' ');
    } else {
      assert token + rest == token + [' '] + rest[1..];
      SplitAfterWord(token, ' ', rest[1..]);
    }
  }

  /**
   index.js lines 36-50: the gate's decision for the `Authorization` header value. The JSON Web
   Token library refuses a missing or empty token before it checks anything, so the
   verifier is asked only about a non-empty second word.
   */
  function Authenticate(header: Option<string>, verify: Verifier): (a: Auth)
    ensures header.None? || header == Some("") ==> a == Denied
    ensures a.Granted? <==>
      && header.Some? && Token(header.value).Some? && Token(header.value).value != ""
      && verify(Token(header.value).value).Some?
    ensures a.Granted? ==> a.claims == verify(Token(header.value).value).value
  {
    if header.None? || header.value == "" then Denied
    else match Token(header.value)
      case None => Denied
      case Some(token) =>
        if token == "" then Denied
        else match verify(token)
          case None => Denied
          case Some(claims) => Granted(claims)
  }
}
