/**
  JSON Pointer resolution.  Each reference token is decoded by two replacement passes, `~1`
  before `~0`; together they undo the escaping of RFC 6901, sections 3 and 4.
 */
module JsonPointer {
  import opened Wrappers

  datatype Json = Object(members: map<string, Json>) | Other

  // ---- Python's string operations ----

  /** Non-overlapping replacement of a two-character `pair` by one character, scanning from the left. */
  function Replace(s: string, pair: string, sub: char): string
    requires |pair| == 2
  {
    if |s| < 2 then s
    else if s[..2] == pair then [sub] + Replace(s[2..], pair, sub)
    else [s[0]] + Replace(s[1..], pair, sub)
  }

  /** Splitting at every slash; the result always has at least one part. */
  function Split(s: string): (parts: seq<string>)
    ensures |parts| > 0
  {
    if s == "" then [""]
    else if s[0] == '/' then [""] + Split(s[1..])
    else
      var rest := Split(s[1..]);
      [[s[0]] + rest[0]] + rest[1..]
  }

  function DecodeToken(raw: string): string { Replace(Replace(raw, "~1", '/'), "~0", '~') }

  // ---- The standard's side ----

  function EscapeChar(c: char): string {
    if c == '~' then "~0" else if c == '/' then "~1" else [c]
  }

  function Escape(key: string): string {
    if key == "" then "" else EscapeChar(key[0]) + Escape(key[1..])
  }

  /** Each key is escaped and preceded by a slash; no key gives the empty pointer. */
  function Encode(keys: seq<string>): string {
    if keys == [] then "" else "/" + (Escape(keys[0]) + Encode(keys[1..]))
  }

  datatype PointerError = Unsupported | Missing

  function Descend(document: Json, keys: seq<string>): Result<Json, PointerError> {
    if keys == [] then Ok(document)
    else if !document.Object? || keys[0] !in document.members then Err(Missing)
    else Descend(document.members[keys[0]], keys[1..])
  }

  // ---- The decoder, as the script runs it ----

  function DecodeTokens(raw: seq<string>): (keys: seq<string>)
    ensures |keys| == |raw|
  {
    if raw == [] then [] else [DecodeToken(raw[0])] + DecodeTokens(raw[1..])
  }

  /** What the script computes, as a function of the document and the fragment. */
  function Resolved(document: Json, fragment: string): Result<Json, PointerError> {
    if fragment == "" then Ok(document)
    else if fragment[0] != '/' then Err(Unsupported)
    else Descend(document, DecodeTokens(Split(fragment[1..])))
  }

  method ResolvePointer(document: Json, fragment: string) returns (result: Result<Json, PointerError>)
    ensures result == Resolved(document, fragment)
  {
    if fragment == "" { return Ok(document); }
    if fragment[0] != '/' { return Err(Unsupported); }
    var parts := Split(fragment[1..]);
    var current := document;
    for i := 0 to |parts|
      invariant Descend(document, DecodeTokens(parts)) == Descend(current, DecodeTokens(parts[i..]))
    {
      var part := DecodeToken(parts[i]);
      assert DecodeTokens(parts[i..])[0] == part && DecodeTokens(parts[i..])[1..] == DecodeTokens(parts[i + 1..]) by {
        assert parts[i..][1..] == parts[i + 1..];
      }
      if !current.Object? || part !in current.members { return Err(Missing); }
      current := current.members[part];
    }
    result := Ok(current);
  }

  // ---- The two passes undo the escaping ----

  /** What is left after the first pass: slashes are back, tildes are still `~0`. */
  function HalfEscape(key: string): string {
    if key == "" then "" else (if key[0] == '~' then "~0" else [key[0]]) + HalfEscape(key[1..])
  }

  lemma PairIsReplaced(pair: string, rest: string, sub: char)
    requires |pair| == 2
    ensures Replace(pair + rest, pair, sub) == [sub] + Replace(rest, pair, sub)
  {
    assert (pair + rest)[..2] == pair && (pair + rest)[2..] == rest;
  }

  /** A character that does not begin the pair with its successor is copied. */
  lemma CharIsCopied(c: char, rest: string, pair: string, sub: char)
    requires |pair| == 2 && (c == pair[0] && rest != "" ==> rest[0] != pair[1])
    ensures Replace([c] + rest, pair, sub) == [c] + Replace(rest, pair, sub)
  {
    assert ([c] + rest)[1..] == rest;
    if rest != "" { assert ([c] + rest)[..2] == [c, rest[0]]; }
  }

  lemma {:induction false} FirstPass(key: string)
    ensures Replace(Escape(key), "~1", '/') == HalfEscape(key)
  {
    if key != "" {
      var rest := Escape(key[1..]);
      FirstPass(key[1..]);
      if key[0] == '~' {
        CharIsCopied('0', rest, "~1", '/');
        CharIsCopied('~', "0" + rest, "~1", '/');
        assert Escape(key) == "~" + ("0" + rest);
      } else if key[0] == '/' {
        PairIsReplaced("~1", rest, '/');
      } else {
        CharIsCopied(key[0], rest, "~1", '/');
      }
    }
  }

  lemma {:induction false} SecondPass(key: string)
    ensures Replace(HalfEscape(key), "~0", '~') == key
  {
    if key != "" {
      var rest := HalfEscape(key[1..]);
      SecondPass(key[1..]);
      if key[0] == '~' {
        PairIsReplaced("~0", rest, '~');
      } else {
        CharIsCopied(key[0], rest, "~0", '~');
      }
    }
  }

  /** Decoding inverts the escaping on every string, also on those that contain `~0` or `~1` literally. */
  lemma DecodeInvertsEscape(key: string)
    ensures DecodeToken(Escape(key)) == key
  {
    FirstPass(key);
    SecondPass(key);
  }

  /** The order of the passes matters: the other order does not invert the escaping. */
  lemma OtherPassOrderFails()
    ensures Replace(Replace(Escape("~1"), "~0", '~'), "~1", '/') != "~1"
  {
    assert Escape("~1") == "~01" by { assert "~1"[1..] == "1" && "1"[1..] == ""; }
    assert Replace("~01", "~0", '~') == "~1" by { assert "~01"[2..] == "1"; }
    assert Replace("~1", "~1", '/') == "/" by { assert "~1"[2..] == ""; }
  }

  // ---- Splitting undoes the joining ----

  lemma {:induction false} EscapedHasNoSlash(key: string)
    ensures '/' !in Escape(key)
  {
    if key != "" { EscapedHasNoSlash(key[1..]); }
  }

  lemma SplitOfChar(c: char, rest: string)
    ensures c == '/' ==> Split([c] + rest) == [""] + Split(rest)
    ensures c != '/' ==> Split([c] + rest) == [[c] + Split(rest)[0]] + Split(rest)[1..]
  {
    assert ([c] + rest)[1..] == rest;
  }

  lemma {:induction false} SplitWithoutSlash(token: string)
    requires '/' !in token
    ensures Split(token) == [token]
  {
    if token != "" {
      SplitWithoutSlash(token[1..]);
      SplitOfChar(token[0], token[1..]);
      assert token == [token[0]] + token[1..];
    }
  }

  lemma {:induction false} SplitAtFirstSlash(token: string, rest: string)
    requires '/' !in token
    ensures Split(token + "/" + rest) == [token] + Split(rest)
    decreases |token|
  {
    if token == "" {
      SplitOfChar('/', rest);
      assert token + "/" + rest == ['/'] + rest;
    } else {
      var tail := token[1..] + "/" + rest;
      SplitAtFirstSlash(token[1..], rest);
      SplitOfChar(token[0], tail);
      assert token + "/" + rest == [token[0]] + tail;
      assert [token[0]] + token[1..] == token;
    }
  }

  function EscapeAll(keys: seq<string>): seq<string> {
    if keys == [] then [] else [Escape(keys[0])] + EscapeAll(keys[1..])
  }

  lemma SplitAtTail(token: string, more: string)
    requires '/' !in token
    ensures more == "" ==> Split(token + more) == [token]
    ensures more != "" && more[0] == '/' ==> Split(token + more) == [token] + Split(more[1..])
  {
    if more == "" {
      SplitWithoutSlash(token);
      assert token + more == token;
    } else if more[0] == '/' {
      SplitAtFirstSlash(token, more[1..]);
      assert token + more == token + "/" + more[1..];
    }
  }

  lemma EncodeOfCons(keys: seq<string>)
    requires keys != []
    ensures Encode(keys) != "" && Encode(keys)[0] == '/'
    ensures Encode(keys)[1..] == Escape(keys[0]) + Encode(keys[1..])
  {
    SlashFirst(Escape(keys[0]) + Encode(keys[1..]));
  }

  lemma SlashFirst(text: string)
    ensures "/" + text != "" && ("/" + text)[0] == '/' && ("/" + text)[1..] == text
  {
  }

  lemma {:induction false} SplitInvertsJoin(keys: seq<string>)
    requires keys != []
    ensures Split(Encode(keys)[1..]) == EscapeAll(keys)
    decreases |keys|
  {
    EncodeOfCons(keys);
    EscapedHasNoSlash(keys[0]);
    SplitAtTail(Escape(keys[0]), Encode(keys[1..]));
    if |keys| > 1 {
      EncodeOfCons(keys[1..]);
      SplitInvertsJoin(keys[1..]);
    }
  }

  lemma {:induction false} DecodeInvertsEscapeAll(keys: seq<string>)
    ensures DecodeTokens(EscapeAll(keys)) == keys
  {
    if keys != [] {
      DecodeInvertsEscapeAll(keys[1..]);
      DecodeInvertsEscape(keys[0]);
      assert EscapeAll(keys)[1..] == EscapeAll(keys[1..]);
    }
  }

  lemma SplitInvertsEncode(keys: seq<string>)
    requires keys != []
    ensures Encode(keys) != "" && Encode(keys)[0] == '/'
    ensures DecodeTokens(Split(Encode(keys)[1..])) == keys
  {
    EncodeOfCons(keys);
    SplitInvertsJoin(keys);
    DecodeInvertsEscapeAll(keys);
  }

  /**
    Resolving the standard encoding of any sequence of keys descends exactly those keys, and fails exactly when that
    does.
   */
  lemma ResolveInvertsEncode(document: Json, keys: seq<string>)
    ensures Resolved(document, Encode(keys)) == Descend(document, keys)
  {
    if keys != [] { SplitInvertsEncode(keys); }
  }

  /** Distinct key sequences have distinct pointers. */
  lemma EncodeIsInjective(a: seq<string>, b: seq<string>)
    requires Encode(a) == Encode(b)
    ensures a == b
  {
    if a != [] { SplitInvertsEncode(a); }
    if b != [] { SplitInvertsEncode(b); }
  }
}
