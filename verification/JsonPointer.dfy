/** JSON pointers (RFC 6901): the token codec and the splitting of a path into segments. */
module JsonPointer {
  import opened Wrappers

  /** `replaceAll` with a string pattern: left to right, without overlap. */
  function ReplaceAll(s: string, pattern: string, replacement: string): string
    requires pattern != ""
  {
    if |s| < |pattern| then s
    else if pattern <= s then replacement + ReplaceAll(s[|pattern|..], pattern, replacement)
    else [s[0]] + ReplaceAll(s[1..], pattern, replacement)
  }

  function PointerToken(token: string): string {
    ReplaceAll(ReplaceAll(token, "~", "~0"), "/", "~1")
  }

  function DecodePointer(token: string): string {
    ReplaceAll(ReplaceAll(token, "~1", "/"), "~0", "~")
  }

  /** `split("/")`. */
  function Split(s: string): (parts: seq<string>)
    ensures |parts| >= 1
  {
    if s == "" then [""]
    else
      var parts := Split(s[1..]);
      if s[0] == '/' then [""] + parts
      else [[s[0]] + parts[0]] + parts[1..]
  }

  function DecodeAll(tokens: seq<string>): seq<string> {
    seq(|tokens|, i requires 0 <= i < |tokens| => DecodePointer(tokens[i]))
  }

  /** None stands for the "Invalid JSON pointer" error. */
  function PointerSegments(path: string): Option<seq<string>> {
    if path == "" then Some([])
    else if path[0] != '/' then None
    else Some(DecodeAll(Split(path[1..])))
  }

  /** The path the diff builds while it descends through `segments`. */
  function PrintPointer(segments: seq<string>): string {
    if segments == [] then ""
    else PrintPointer(segments[..|segments| - 1]) + "/" + PointerToken(segments[|segments| - 1])
  }

  // ---- The codec, one character at a time ----

  function EncodeChar(c: char): string {
    if c == '~' then "~0" else if c == '/' then "~1" else [c]
  }

  /** A token that escapes every '/' and every '~'. */
  predicate WellFormedToken(t: string) {
    if t == "" then true
    else if t[0] == '~' then |t| >= 2 && (t[1] == '0' || t[1] == '1') && WellFormedToken(t[2..])
    else t[0] != '/' && WellFormedToken(t[1..])
  }

  lemma ReplaceSkip(c: char, s: string, pattern: string, replacement: string)
    requires pattern != "" && pattern[0] != c
    ensures ReplaceAll([c] + s, pattern, replacement) == [c] + ReplaceAll(s, pattern, replacement)
  {
    var whole := [c] + s;
    assert whole[1..] == s;
    if |whole| < |pattern| {
      assert ReplaceAll(whole, pattern, replacement) == whole;
    } else {
      assert !(pattern <= whole) by {
        assert whole[0] == c;
      }
    }
  }

  lemma ReplaceHit(s: string, pattern: string, replacement: string)
    requires pattern != ""
    ensures ReplaceAll(pattern + s, pattern, replacement) == replacement + ReplaceAll(s, pattern, replacement)
  {
    assert (pattern + s)[|pattern|..] == s;
  }

  lemma PointerTokenCons(c: char, s: string)
    ensures PointerToken([c] + s) == EncodeChar(c) + PointerToken(s)
  {
    var t := ReplaceAll(s, "~", "~0");
    if c == '~' {
      ReplaceHit(s, "~", "~0");
      ReplaceSkip('0', t, "/", "~1");
      ReplaceSkip('~', "0" + t, "/", "~1");
      assert "~0" + t == "~" + ("0" + t);
      assert "~" + ("0" + PointerToken(s)) == "~0" + PointerToken(s);
    } else {
      ReplaceSkip(c, s, "~", "~0");
      if c == '/' {
        ReplaceHit(t, "/", "~1");
      } else {
        ReplaceSkip(c, t, "/", "~1");
      }
    }
  }

  lemma DecodePointerEscape(d: char, t: string)
    requires d == '0' || d == '1'
    ensures DecodePointer(['~', d] + t) == [if d == '0' then '~' else '/'] + DecodePointer(t)
  {
    var u := ReplaceAll(t, "~1", "/");
    if d == '1' {
      assert ['~', d] + t == "~1" + t;
      ReplaceHit(t, "~1", "/");
      ReplaceSkip('/', u, "~0", "~");
    } else {
      ReplaceSkip('0', t, "~1", "/");
      assert ReplaceAll(['~', d] + t, "~1", "/") == ['~'] + ReplaceAll(['0'] + t, "~1", "/") by {
        assert (['~', d] + t)[1..] == ['0'] + t;
      }
      assert ['~'] + (['0'] + u) == "~0" + u;
      ReplaceHit(u, "~0", "~");
    }
  }

  lemma DecodePointerPlain(c: char, t: string)
    requires c != '~'
    ensures DecodePointer([c] + t) == [c] + DecodePointer(t)
  {
    ReplaceSkip(c, t, "~1", "/");
    ReplaceSkip(c, ReplaceAll(t, "~1", "/"), "~0", "~");
  }

  lemma {:induction false} TokenRoundTrip(s: string)
    ensures DecodePointer(PointerToken(s)) == s
    ensures WellFormedToken(PointerToken(s))
    ensures '/' !in PointerToken(s)
  {
    if s != "" {
      var c, rest := s[0], s[1..];
      assert s == [c] + rest;
      PointerTokenCons(c, rest);
      TokenRoundTrip(rest);
      var t := PointerToken(rest);
      if c == '~' || c == '/' {
        var d := if c == '~' then '0' else '1';
        assert EncodeChar(c) + t == ['~', d] + t;
        assert (['~', d] + t)[2..] == t;
        DecodePointerEscape(d, t);
      } else {
        assert ([c] + t)[1..] == t;
        DecodePointerPlain(c, t);
      }
    }
  }

  lemma {:induction false} WellFormedRoundTrip(t: string)
    requires WellFormedToken(t)
    ensures PointerToken(DecodePointer(t)) == t
  {
    if t == "" {
    } else if t[0] == '~' {
      assert t == ['~', t[1]] + t[2..];
      DecodePointerEscape(t[1], t[2..]);
      PointerTokenCons(if t[1] == '0' then '~' else '/', DecodePointer(t[2..]));
      WellFormedRoundTrip(t[2..]);
    } else {
      assert t == [t[0]] + t[1..];
      DecodePointerPlain(t[0], t[1..]);
      PointerTokenCons(t[0], DecodePointer(t[1..]));
      WellFormedRoundTrip(t[1..]);
    }
  }

  /** Re-encoding a decoded token gives the token back exactly when it was well-formed. */
  lemma DecodeEncodeExact(t: string)
    ensures PointerToken(DecodePointer(t)) == t <==> WellFormedToken(t)
  {
    TokenRoundTrip(DecodePointer(t));
    if WellFormedToken(t) {
      WellFormedRoundTrip(t);
    }
  }

  // ---- One pass over the characters ----

  /** Escaping read off RFC 6901: each character on its own. */
  function Escaped(s: string): string {
    if s == "" then "" else (if s[0] == '~' then "~0" else if s[0] == '/' then "~1" else [s[0]]) + Escaped(s[1..])
  }

  /** Unescaping in one pass: "~0" and "~1" are escapes, any other "~" stands for itself. */
  function Unescaped(t: string): string {
    if t == "" then ""
    else if |t| >= 2 && t[0] == '~' && t[1] == '0' then "~" + Unescaped(t[2..])
    else if |t| >= 2 && t[0] == '~' && t[1] == '1' then "/" + Unescaped(t[2..])
    else [t[0]] + Unescaped(t[1..])
  }

  lemma DecodeStrayTilde(t: string)
    requires t != "" ==> t[0] != '0' && t[0] != '1'
    ensures DecodePointer("~" + t) == "~" + DecodePointer(t)
  {
    var whole, u := "~" + t, ReplaceAll(t, "~1", "/");
    assert whole[1..] == t;
    assert ReplaceAll(whole, "~1", "/") == "~" + u by {
      if t != "" {
        assert whole[1] == t[0];
      } else {
        assert u == "" && "~" + "" == "~";
      }
    }
    var again := "~" + u;
    assert again[1..] == u;
    if t == "" {
      assert u == "" && again == "~";
    } else {
      assert u != "" && u[0] != '0' by {
        if |t| >= 2 && "~1" <= t {
          assert u[0] == '/';
        } else {
          assert u[0] == t[0];
        }
      }
      assert again[1] == u[0];
    }
  }

  /** The two replacements, one after the other, escape and unescape in one pass. */
  lemma {:induction false} TwoPassesAreOne(s: string)
    ensures PointerToken(s) == Escaped(s)
    ensures DecodePointer(s) == Unescaped(s)
    decreases |s|
  {
    if s != "" {
      assert s == [s[0]] + s[1..];
      hide PointerToken, DecodePointer;
      TwoPassesAreOne(s[1..]);
      PointerTokenCons(s[0], s[1..]);
      if s[0] != '~' {
        DecodePointerPlain(s[0], s[1..]);
      } else if |s| >= 2 && (s[1] == '0' || s[1] == '1') {
        assert s == ['~', s[1]] + s[2..];
        DecodePointerEscape(s[1], s[2..]);
        TwoPassesAreOne(s[2..]);
      } else {
        DecodeStrayTilde(s[1..]);
      }
    } else {
      assert PointerToken("") == "" && DecodePointer("") == "";
    }
  }

  // ---- Splitting a printed path ----

  lemma {:induction false} SplitToken(t: string)
    requires '/' !in t
    ensures Split(t) == [t]
  {
    if t != "" {
      SplitToken(t[1..]);
      assert [t[0]] + t[1..] == t;
    }
  }

  lemma {:induction false} SplitSnoc(s: string, t: string)
    requires '/' !in t
    ensures Split(s + "/" + t) == Split(s) + [t]
  {
    var whole := s + "/" + t;
    if s == "" {
      assert whole[1..] == t;
      SplitToken(t);
    } else {
      assert whole[1..] == s[1..] + "/" + t;
      SplitSnoc(s[1..], t);
    }
  }

  function EncodeAll(segments: seq<string>): seq<string> {
    seq(|segments|, i requires 0 <= i < |segments| => PointerToken(segments[i]))
  }

  lemma PrintSnoc(init: seq<string>, last: string)
    ensures PrintPointer(init + [last]) == PrintPointer(init) + "/" + PointerToken(last)
    ensures EncodeAll(init + [last]) == EncodeAll(init) + [PointerToken(last)]
  {
    assert (init + [last])[..|init|] == init;
  }

  /** One more segment at the end of a path is one more part of its split. */
  lemma SplitExtended(path: string, token: string)
    requires '/' !in token
    ensures path + "/" + token != ""
    ensures path != "" ==> (path + "/" + token)[0] == path[0]
    ensures path == "" ==> (path + "/" + token)[0] == '/'
    ensures Split((path + "/" + token)[1..]) == (if path == "" then [] else Split(path[1..])) + [token]
  {
    if path == "" {
      assert (path + "/" + token)[1..] == token;
      SplitToken(token);
    } else {
      assert (path + "/" + token)[1..] == path[1..] + "/" + token;
      SplitSnoc(path[1..], token);
    }
  }

  /** Tokens behind their slashes. */
  function Joined(tokens: seq<string>): string {
    if tokens == [] then "" else Joined(tokens[..|tokens| - 1]) + "/" + tokens[|tokens| - 1]
  }

  predicate NoSlashes(tokens: seq<string>) {
    forall i :: 0 <= i < |tokens| ==> '/' !in tokens[i]
  }

  lemma JoinedSnoc(init: seq<string>, last: string)
    ensures Joined(init + [last]) == Joined(init) + "/" + last
  {
    assert (init + [last])[..|init|] == init;
  }

  lemma {:induction false} SplitJoined(tokens: seq<string>)
    requires tokens != [] && NoSlashes(tokens)
    ensures Joined(tokens) != "" && Joined(tokens)[0] == '/'
    ensures Split(Joined(tokens)[1..]) == tokens
    decreases |tokens|
  {
    var init, last := tokens[..|tokens| - 1], tokens[|tokens| - 1];
    assert tokens == init + [last] && Joined([]) == "";
    hide Split, Joined;
    JoinedSnoc(init, last);
    SplitExtended(Joined(init), last);
    if init != [] {
      SplitJoined(init);
    }
  }

  lemma {:induction false} PrintIsJoined(segments: seq<string>)
    ensures PrintPointer(segments) == Joined(EncodeAll(segments))
  {
    if segments != [] {
      var init, last := segments[..|segments| - 1], segments[|segments| - 1];
      assert segments == init + [last];
      hide PointerToken;
      PrintIsJoined(init);
      PrintSnoc(init, last);
      assert EncodeAll(segments)[..|init|] == EncodeAll(init);
    }
  }

  function UnescapedAll(tokens: seq<string>): seq<string> {
    seq(|tokens|, i requires 0 <= i < |tokens| => Unescaped(tokens[i]))
  }

  /** Reading a pointer unescapes the tokens between its slashes, whatever they are. */
  lemma SegmentsRead(tokens: seq<string>)
    requires NoSlashes(tokens)
    ensures PointerSegments(Joined(tokens)) == Some(UnescapedAll(tokens))
  {
    if tokens != [] {
      SplitJoined(tokens);
      hide Split, Joined, DecodePointer, Unescaped;
      assert PointerSegments(Joined(tokens)) == Some(DecodeAll(tokens));
      forall i | 0 <= i < |tokens| ensures DecodePointer(tokens[i]) == Unescaped(tokens[i]) {
        TwoPassesAreOne(tokens[i]);
      }
      assert DecodeAll(tokens) == UnescapedAll(tokens);
    } else {
      assert Joined(tokens) == "" && UnescapedAll(tokens) == [];
    }
  }

  /** Every text is a pointer, unless it is not empty and has no slash at its start. */
  lemma NoPointerExact(path: string)
    ensures PointerSegments(path).None? <==> !exists tokens :: NoSlashes(tokens) && path == Joined(tokens)
    ensures PointerSegments(path).None? <==> path != "" && path[0] != '/'
  {
    if path == "" {
      assert path == Joined([]);
    } else if path[0] == '/' {
      JoinSplit(path[1..]);
      assert path == "/" + path[1..] == Joined(Split(path[1..]));
    } else {
      forall tokens | NoSlashes(tokens) ensures path != Joined(tokens) {
        if tokens != [] {
          SplitJoined(tokens);
        }
      }
    }
  }

  lemma JoinSplitStep(s: string, later: seq<string>)
    requires s != "" && later != [] && "/" + s[1..] == Joined(later) && NoSlashes(later)
    ensures var parts := if s[0] == '/' then [""] + later else [[s[0]] + later[0]] + later[1..];
      "/" + s == Joined(parts) && NoSlashes(parts)
  {
    hide Joined;
    if s[0] == '/' {
      JoinedCons("", later);
      assert "/" + "" + ("/" + s[1..]) == "/" + s;
    } else {
      JoinedHead(s[0], later);
      HeadBack(s);
    }
  }

  lemma {:induction false} JoinSplit(s: string)
    ensures "/" + s == Joined(Split(s)) && NoSlashes(Split(s))
  {
    if s == "" {
      assert Joined([]) == "" && [] + [""] == [""];
      JoinedSnoc([], "");
    } else {
      JoinSplit(s[1..]);
      JoinSplitStep(s, Split(s[1..]));
      hide Joined, NoSlashes;
    }
  }

  lemma HeadBack(s: string)
    requires s != ""
    ensures "/" + [s[0]] + ("/" + s[1..])[1..] == "/" + s
  {
  }

  lemma {:induction false} JoinedCons(token: string, tokens: seq<string>)
    ensures Joined([token] + tokens) == "/" + token + Joined(tokens)
    decreases |tokens|
  {
    var all := [token] + tokens;
    if tokens == [] {
      assert all == [token] && all[..0] == [] && Joined([]) == "";
      assert "" + "/" + token == "/" + token + "";
    } else {
      assert all[..|tokens|] == [token] + tokens[..|tokens| - 1];
      JoinedCons(token, tokens[..|tokens| - 1]);
    }
  }

  lemma JoinedHead(c: char, tokens: seq<string>)
    requires tokens != []
    ensures Joined(tokens) != ""
    ensures Joined([[c] + tokens[0]] + tokens[1..]) == "/" + [c] + Joined(tokens)[1..]
  {
    assert tokens == [tokens[0]] + tokens[1..];
    hide Joined;
    JoinedCons(tokens[0], tokens[1..]);
    JoinedCons([c] + tokens[0], tokens[1..]);
    CharBefore(c, tokens[0], Joined(tokens[1..]));
  }

  lemma CharBefore(c: char, token: string, more: string)
    ensures ("/" + token + more)[1..] == token + more
    ensures "/" + ([c] + token) + more == "/" + [c] + (token + more)
  {
  }

  /** Splitting a printed path returns the segments it was printed from. */
  lemma PathRoundTrip(segments: seq<string>)
    ensures PointerSegments(PrintPointer(segments)) == Some(segments)
  {
    forall i | 0 <= i < |segments|
      ensures DecodePointer(PointerToken(segments[i])) == segments[i] && '/' !in PointerToken(segments[i])
    {
      TokenRoundTrip(segments[i]);
    }
    PrintIsJoined(segments);
    if segments != [] {
      SplitJoined(EncodeAll(segments));
      assert DecodeAll(EncodeAll(segments)) == segments;
    }
  }

  /** Distinct key paths never print the same pointer. */
  lemma PrintPointerInjective(p: seq<string>, q: seq<string>)
    requires PrintPointer(p) == PrintPointer(q)
    ensures p == q
  {
    PathRoundTrip(p);
    PathRoundTrip(q);
  }
}
