/**
 * String helpers shared by the Python back end and the JavaScript front end:
 * whitespace trimming (Python's str.strip() and JavaScript's String.prototype.trim
 * use different whitespace sets) and separator joining (Python's str.join).
 */
module Text {

  /** The characters for which Python's str.isspace() holds; str.strip() with no argument removes them. */
  const PyWhitespace: set<char> := {
    '\t', '\n', '\U{000B}', '\U{000C}', '\r', '\U{001C}', '\U{001D}', '\U{001E}', '\U{001F}', ' ',
    '\U{0085}', '\U{00A0}', '\U{1680}', '\U{2000}', '\U{2001}', '\U{2002}', '\U{2003}', '\U{2004}',
    '\U{2005}', '\U{2006}', '\U{2007}', '\U{2008}', '\U{2009}', '\U{200A}', '\U{2028}', '\U{2029}',
    '\U{202F}', '\U{205F}', '\U{3000}'
  }

  /** The WhiteSpace and LineTerminator characters that JavaScript's String.prototype.trim() removes. */
  const JsWhitespace: set<char> := {
    '\t', '\n', '\U{000B}', '\U{000C}', '\r', ' ', '\U{00A0}', '\U{1680}', '\U{2000}', '\U{2001}',
    '\U{2002}', '\U{2003}', '\U{2004}', '\U{2005}', '\U{2006}', '\U{2007}', '\U{2008}', '\U{2009}',
    '\U{200A}', '\U{2028}', '\U{2029}', '\U{202F}', '\U{205F}', '\U{3000}', '\U{FEFF}'
  }

  /** Drops the leading characters that belong to `ws`. */
  function TrimStart(s: string, ws: set<char>): (r: string)
    ensures |r| <= |s| && r == s[|s| - |r|..]
    ensures r != [] ==> r[0] !in ws
    ensures forall i :: 0 <= i < |s| - |r| ==> s[i] in ws
  {
    if s != [] && s[0] in ws then TrimStart(s[1..], ws) else s
  }

  /** Drops the trailing characters that belong to `ws`. */
  function TrimEnd(s: string, ws: set<char>): (r: string)
    ensures |r| <= |s| && r == s[..|r|]
    ensures r != [] ==> r[|r| - 1] !in ws
    ensures forall i :: |r| <= i < |s| ==> s[i] in ws
  {
    if s != [] && s[|s| - 1] in ws then TrimEnd(s[..|s| - 1], ws) else s
  }

  /**
   * Removes whitespace (the characters of `ws`) from both ends: the result is the
   * part of `s` between its first and its last non-whitespace character.
   */
  function Trim(s: string, ws: set<char>): (r: string)
    ensures r == [] <==> forall i :: 0 <= i < |s| ==> s[i] in ws
  {
    var front := TrimStart(s, ws);
    var r := TrimEnd(front, ws);
    assert r == [] ==> forall i :: 0 <= i < |s| ==> s[i] in ws by {
      if r == [] {
        assert front == [];
      }
    }
    r
  }

  /**
   * What is left after trimming is the piece `s[i..j]` of `s` with only whitespace
   * before it and only whitespace after it, and it neither starts nor ends with
   * whitespace: exactly `s` minus its leading and trailing whitespace.
   */
  lemma TrimBounds(s: string, ws: set<char>)
    ensures var r := Trim(s, ws);
      (exists i, j :: 0 <= i <= j <= |s| && r == s[i..j] &&
        (forall k :: 0 <= k < i ==> s[k] in ws) && (forall k :: j <= k < |s| ==> s[k] in ws)) &&
      (r != [] ==> r[0] !in ws && r[|r| - 1] !in ws)
  {
    var i, j := TrimPiece(s, ws);
  }

  /** The bounds of the piece `Trim` keeps. */
  lemma TrimPiece(s: string, ws: set<char>) returns (i: nat, j: nat)
    ensures i <= j <= |s| && Trim(s, ws) == s[i..j]
    ensures forall k :: 0 <= k < i ==> s[k] in ws
    ensures forall k :: j <= k < |s| ==> s[k] in ws
    ensures Trim(s, ws) != [] ==> s[i] !in ws && s[j - 1] !in ws
  {
    var front := TrimStart(s, ws);
    var r := TrimEnd(front, ws);
    assert Trim(s, ws) == r;
    i := |s| - |front|;
    j := i + |r|;
    assert r == s[i..j];
    forall k | j <= k < |s| ensures s[k] in ws {
      assert s[k] == front[k - i];
    }
    if r != [] {
      assert s[i] == r[0] && s[j - 1] == r[|r| - 1];
    }
  }

  /** Trimming is idempotent: a trimmed string has nothing left to trim. */
  lemma {:induction false} TrimIdempotent(s: string, ws: set<char>)
    ensures Trim(Trim(s, ws), ws) == Trim(s, ws)
  {
    var t := Trim(s, ws);
    if t != [] {
      assert TrimStart(t, ws) == t;
      assert TrimEnd(t, ws) == t;
    }
  }

  /** Python's `sep.join(parts)`. */
  function Join(sep: string, parts: seq<string>): (r: string)
    ensures parts == [] ==> r == ""
    ensures |parts| == 1 ==> r == parts[0]
    ensures |r| >= |sep| * (|parts| - 1)
  {
    if parts == [] then ""
    else if |parts| == 1 then parts[0]
    else Join(sep, parts[..|parts| - 1]) + sep + parts[|parts| - 1]
  }

  /** Joining from the left: the first part, the separator, then the rest joined. */
  lemma {:induction false} JoinFirst(sep: string, first: string, rest: seq<string>)
    requires rest != []
    ensures Join(sep, [first] + rest) == first + sep + Join(sep, rest)
  {
    var parts := [first] + rest;
    if |rest| > 1 {
      var init := rest[..|rest| - 1];
      assert parts[..|parts| - 1] == [first] + init;
      JoinFirst(sep, first, init);
    } else {
      assert parts[..|parts| - 1] == [first];
    }
  }
}
