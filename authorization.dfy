/**
 * The Authorization header built in `Discord.__init__`: the token type is
 * capitalised (`str.capitalize`) and prefixed to the token, except for the
 * type "User", whose header is the bare token.
 */
module Authorization {

  function Upper(c: char): char
  {
    if 'a' <= c <= 'z' then (c as int - 32) as char else c
  }

  function Lower(c: char): char
  {
    if 'A' <= c <= 'Z' then (c as int + 32) as char else c
  }

  function LowerAll(s: string): (r: string)
    ensures |r| == |s| && forall i :: 0 <= i < |s| ==> r[i] == Lower(s[i])
  {
    seq(|s|, i requires 0 <= i < |s| => Lower(s[i]))
  }

  /** `str.capitalize` on ASCII text: the first character upper case, the rest lower case. */
  function Capitalize(s: string): (r: string)
    ensures |r| == |s|
    ensures |s| > 0 ==> r[0] == Upper(s[0])
    ensures forall i :: 1 <= i < |s| ==> r[i] == Lower(s[i])
  {
    if s == [] then [] else [Upper(s[0])] + LowerAll(s[1..])
  }

  /** Equal up to ASCII case. */
  predicate SameIgnoringCase(a: string, b: string)
  {
    |a| == |b| && forall i :: 0 <= i < |a| ==> Lower(a[i]) == Lower(b[i])
  }

  /** The header value sent with every Discord request. */
  function Header(tokenType: string, token: string): (h: string)
  {
    var kind := Capitalize(tokenType);
    if kind != "User" then kind + " " + token else token
  }

  /** Capitalising twice changes nothing. */
  lemma CapitalizeIdempotent(s: string)
    ensures Capitalize(Capitalize(s)) == Capitalize(s)
  {
  }

  /** The token type capitalises to "User" exactly when it spells "user" in any case. */
  lemma {:induction false} CapitalizesToUser(tokenType: string)
    ensures Capitalize(tokenType) == "User" <==> SameIgnoringCase(tokenType, "user")
  {
    var c := Capitalize(tokenType);
    if SameIgnoringCase(tokenType, "user") {
      assert Lower(tokenType[0]) == 'u';
      assert Lower(tokenType[1]) == 's' && Lower(tokenType[2]) == 'e' && Lower(tokenType[3]) == 'r';
      assert c[0] == 'U';
      assert c == "User";
    }
    if c == "User" {
      assert Upper(tokenType[0]) == 'U' && Lower(tokenType[1]) == 's';
      assert Lower(tokenType[2]) == 'e' && Lower(tokenType[3]) == 'r';
      assert Lower(tokenType[0]) == 'u';
    }
  }

  /**
   * The header is the bare token exactly for the type "user" (in any case);
   * for every other type it is the capitalised type, a space, and the token.
   */
  lemma {:induction false} HeaderShape(tokenType: string, token: string)
    ensures Header(tokenType, token) == token <==> SameIgnoringCase(tokenType, "user")
    ensures !SameIgnoringCase(tokenType, "user") ==>
      Header(tokenType, token) == Capitalize(tokenType) + " " + token
  {
    CapitalizesToUser(tokenType);
    if !SameIgnoringCase(tokenType, "user") {
      assert |Header(tokenType, token)| > |token|;
    }
  }

  /** The three token types the command line accepts (it lower-cases its argument). */
  lemma CommandLineTokenTypes(token: string)
    ensures Header("user", token) == token
    ensures Header("bearer", token) == "Bearer " + token
    ensures Header("bot", token) == "Bot " + token
  {
    HeaderShape("user", token);
    HeaderShape("bearer", token);
    HeaderShape("bot", token);
    assert Capitalize("bearer") == "Bearer";
    assert Capitalize("bot") == "Bot";
  }
}
