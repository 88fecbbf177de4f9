/** The JavaScript string operations the core relies on, over `seq<char>`:
    `trim`, `toLowerCase`, `indexOf`/`includes`, `split` and `Array.join`.
    Only ASCII whitespace and ASCII letters are modelled. */
module Text {
  import opened Wrappers

  type String = seq<char>

  /** ASCII whitespace as `String.prototype.trim` removes it. */
  predicate IsSpace(c: char) {
    c == ' ' || c == '\t' || c == '\n' || c == '\r' || c == '\U{B}' || c == '\U{C}'
  }

  /** Drops leading whitespace: the result is the suffix that starts at the
      first non-space character. */
  function TrimStart(s: String): (r: String)
    ensures |r| <= |s| && r == s[|s| - |r|..]
    ensures forall k :: 0 <= k < |s| - |r| ==> IsSpace(s[k])
    ensures r == [] || !IsSpace(r[0])
  {
    if s != [] && IsSpace(s[0]) then
      var r := TrimStart(s[1..]);
      assert s[1..][|s| - 1 - |r|..] == s[|s| - |r|..];
      assert forall k :: 1 <= k < |s| ==> s[k] == s[1..][k - 1];
      r
    else s
  }

  /** Drops trailing whitespace: the result is the prefix that ends at the
      last non-space character. */
  function TrimEnd(s: String): (r: String)
    ensures |r| <= |s| && r == s[..|r|]
    ensures forall k :: |r| <= k < |s| ==> IsSpace(s[k])
    ensures r == [] || !IsSpace(r[|r| - 1])
  {
    if s != [] && IsSpace(s[|s| - 1]) then TrimEnd(s[..|s| - 1]) else s
  }

  /** Number of leading whitespace characters of `s`. */
  function LeadingSpaces(s: String): nat {
    |s| - |TrimStart(s)|
  }

  /** `s.trim()`: the longest slice of `s` that neither starts nor ends with
      whitespace, everything cut off on either side being whitespace. */
  function Trim(s: String): (r: String)
    ensures LeadingSpaces(s) + |r| <= |s|
    ensures r == s[LeadingSpaces(s)..LeadingSpaces(s) + |r|]
    ensures forall k :: 0 <= k < LeadingSpaces(s) ==> IsSpace(s[k])
    ensures forall k :: LeadingSpaces(s) + |r| <= k < |s| ==> IsSpace(s[k])
    ensures r == [] || (!IsSpace(r[0]) && !IsSpace(r[|r| - 1]))
  {
    TrimEnd(TrimStart(s))
  }

  /** Trimming never introduces a character. */
  lemma TrimKeeps(s: String, c: char)
    requires c in Trim(s)
    ensures c in s
  {
    var r := Trim(s);
    var k :| 0 <= k < |r| && r[k] == c;
    assert s[LeadingSpaces(s) + k] == c;
  }

  /** ASCII `toLowerCase` of one character. */
  function LowerChar(c: char): char {
    if 'A' <= c <= 'Z' then (c as int + 32) as char else c
  }

  /** `s.toLowerCase()` on ASCII letters. */
  function ToLower(s: String): (r: String)
    ensures |r| == |s|
    ensures forall i :: 0 <= i < |s| ==> r[i] == LowerChar(s[i])
  {
    seq(|s|, i requires 0 <= i < |s| => LowerChar(s[i]))
  }

  /** Lower-casing is idempotent. */
  lemma ToLowerIdempotent(s: String)
    ensures ToLower(ToLower(s)) == ToLower(s)
  {
  }

  /** `pat` occurs in `s` starting at index `i`. */
  predicate OccursAt(s: String, pat: String, i: int) {
    0 <= i && i + |pat| <= |s| && s[i..i + |pat|] == pat
  }

  /** `s.indexOf(pat)`: the first index at which `pat` occurs, if any. */
  function IndexOf(s: String, pat: String): (r: Option<nat>)
    ensures r.Some? ==> OccursAt(s, pat, r.value)
    ensures r.Some? ==> forall j :: 0 <= j < r.value ==> !OccursAt(s, pat, j)
    ensures r.None? ==> forall j :: !OccursAt(s, pat, j)
    decreases |s|
  {
    if |s| < |pat| then None
    else if s[..|pat|] == pat then Some(0)
    else
      ShiftOccurs(s, pat);
      match IndexOf(s[1..], pat)
      case None => None
      case Some(i) => Some(i + 1)
  }

  /** Occurrences in `s[1..]` are the occurrences in `s` shifted by one. */
  lemma ShiftOccurs(s: String, pat: String)
    requires |s| >= |pat| && s[..|pat|] != pat
    ensures !OccursAt(s, pat, 0)
    ensures forall j :: 1 <= j ==> (OccursAt(s, pat, j) <==> OccursAt(s[1..], pat, j - 1))
  {
    assert s[0..|pat|] == s[..|pat|];
    forall j | 1 <= j ensures OccursAt(s, pat, j) <==> OccursAt(s[1..], pat, j - 1) {
      if j + |pat| <= |s| {
        assert s[1..][j - 1..j - 1 + |pat|] == s[j..j + |pat|];
      }
    }
  }

  /** `s.includes(pat)`. */
  function Contains(s: String, pat: String): (b: bool)
    ensures b <==> exists j :: OccursAt(s, pat, j)
  {
    IndexOf(s, pat).Some?
  }

  /** `s.split(sep)` for a non-empty separator: the pieces between the
      non-overlapping occurrences of `sep`, found from the left. */
  function Split(s: String, sep: String): (parts: seq<String>)
    requires sep != []
    ensures |parts| >= 1
    decreases |s|
  {
    match IndexOf(s, sep)
    case None => [s]
    case Some(i) => [s[..i]] + Split(s[i + |sep|..], sep)
  }

  /** `parts.join(sep)`; joining no parts gives the empty string. */
  function Join(parts: seq<String>, sep: String): String {
    if parts == [] then []
    else if |parts| == 1 then parts[0]
    else parts[0] + sep + Join(parts[1..], sep)
  }

  /** Joining a piece in front of at least one more piece puts the
      separator between them. */
  lemma JoinCons(p: String, tail: seq<String>, sep: String)
    requires |tail| >= 1
    ensures Join([p] + tail, sep) == p + sep + Join(tail, sep)
  {
    assert ([p] + tail)[1..] == tail;
  }

  /** Joining the pieces of a split with the same separator gives back the
      original string. */
  lemma {:induction false} JoinSplit(s: String, sep: String)
    requires sep != []
    ensures Join(Split(s, sep), sep) == s
    decreases |s|
  {
    var r := IndexOf(s, sep);
    if r.Some? {
      var i := r.value;
      var rest := s[i + |sep|..];
      JoinSplit(rest, sep);
      JoinCons(s[..i], Split(rest, sep), sep);
      assert s == s[..i] + s[i..i + |sep|] + rest;
    }
  }

  /** The part of `s` before the first occurrence of `sep` does not contain
      `sep`. */
  lemma PrefixBeforeFirstFree(s: String, sep: String, i: nat)
    requires sep != [] && IndexOf(s, sep) == Some(i)
    ensures !Contains(s[..i], sep)
  {
    forall j ensures !OccursAt(s[..i], sep, j) {
      OccursInPrefix(s, sep, i, j);
    }
  }

  /** An occurrence inside a prefix is an occurrence in the whole string,
      ending within the prefix. */
  lemma OccursInPrefix(s: String, pat: String, i: nat, j: int)
    requires i <= |s|
    ensures OccursAt(s[..i], pat, j) ==> OccursAt(s, pat, j) && j + |pat| <= i
  {
    if OccursAt(s[..i], pat, j) {
      forall k | 0 <= k < |pat| ensures s[j..j + |pat|][k] == pat[k] {
        assert s[..i][j..j + |pat|][k] == pat[k];
      }
    }
  }

  /** No piece of a split contains the separator. */
  lemma {:induction false} SplitPiecesFree(s: String, sep: String)
    requires sep != []
    ensures forall p :: p in Split(s, sep) ==> !Contains(p, sep)
    decreases |s|
  {
    var r := IndexOf(s, sep);
    if r.Some? {
      var i := r.value;
      var rest := s[i + |sep|..];
      SplitPiecesFree(rest, sep);
      PrefixBeforeFirstFree(s, sep, i);
      assert Split(s, sep) == [s[..i]] + Split(rest, sep);
    }
  }

  /** When `sep` occurs, the first piece is everything before its first
      occurrence and the remaining pieces rejoin to everything after it;
      when it does not occur, the split is the whole string. */
  lemma SplitAtFirst(s: String, sep: String)
    requires sep != []
    ensures IndexOf(s, sep).None? ==> Split(s, sep) == [s]
    ensures IndexOf(s, sep).Some? ==>
      var i := IndexOf(s, sep).value;
      |Split(s, sep)| >= 2 && Split(s, sep)[0] == s[..i]
      && Join(Split(s, sep)[1..], sep) == s[i + |sep|..]
  {
    if IndexOf(s, sep).Some? {
      var i := IndexOf(s, sep).value;
      JoinSplit(s[i + |sep|..], sep);
      assert Split(s, sep)[1..] == Split(s[i + |sep|..], sep);
    }
  }

  /** A one-character pattern occurs exactly where that character is. */
  lemma OccursOneChar(s: String, c: char, i: int)
    requires OccursAt(s, [c], i)
    ensures s[i] == c
  {
    assert s[i..i + 1][0] == s[i];
  }

  /** The first occurrence of a one-character pattern in a string that
      contains that character only after a prefix `p` free of it. */
  lemma IndexOfAfterFree(p: String, c: char, rest: String)
    requires c !in p
    ensures IndexOf(p + [c] + rest, [c]) == Some(|p|)
  {
    var s := p + [c] + rest;
    assert s[|p|..|p| + 1] == [c];
    assert OccursAt(s, [c], |p|);
    if IndexOf(s, [c]).value < |p| {
      OccursOneChar(s, c, IndexOf(s, [c]).value);
      assert false;
    }
  }

  /** Joining no pieces gives the empty string, which splits into one
      empty piece rather than none. */
  lemma SplitJoinEmpty(c: char)
    ensures Join([], [c]) == [] && Split(Join([], [c]), [c]) == [[]]
  {
  }

  /** A string free of the character `c` splits at `c` into itself. */
  lemma SplitFree(s: String, c: char)
    requires c !in s
    ensures Split(s, [c]) == [s]
  {
    if IndexOf(s, [c]).Some? {
      OccursOneChar(s, c, IndexOf(s, [c]).value);
      assert false;
    }
  }

  /** Splitting, at a one-character separator, the join of pieces that do
      not contain that character gives back the pieces. */
  lemma {:induction false} SplitJoin(parts: seq<String>, c: char)
    requires |parts| >= 1
    requires forall p :: p in parts ==> c !in p
    ensures Split(Join(parts, [c]), [c]) == parts
  {
    if |parts| == 1 {
      SplitFree(parts[0], c);
    } else {
      var p := parts[0];
      var rest := Join(parts[1..], [c]);
      assert Join(parts, [c]) == p + [c] + rest;
      SplitCons(p, c, rest);
      SplitJoin(parts[1..], c);
      assert parts == [p] + parts[1..];
    }
  }

  /** Splitting at a character cuts off the piece before its first
      occurrence. */
  lemma SplitCons(p: String, c: char, rest: String)
    requires c !in p
    ensures Split(p + [c] + rest, [c]) == [p] + Split(rest, [c])
  {
    var s := p + [c] + rest;
    IndexOfAfterFree(p, c, rest);
    assert s[..|p|] == p;
    assert s[|p| + 1..] == rest;
  }

  /** A character that is in none of the parts and not in the separator is
      not in their join. */
  lemma {:induction false} JoinAvoids(parts: seq<String>, sep: String, c: char)
    requires forall p :: p in parts ==> c !in p
    requires c !in sep
    ensures c !in Join(parts, sep)
  {
    if |parts| > 1 {
      assert parts[0] in parts;
      assert forall p :: p in parts[1..] ==> p in parts;
      JoinAvoids(parts[1..], sep, c);
    } else if |parts| == 1 {
      assert parts[0] in parts;
    }
  }

  /** A string that does not contain the one-character pattern `[c]` does
      not hold `c`. */
  lemma NoCharOccurs(p: String, c: char)
    requires !Contains(p, [c])
    ensures c !in p
  {
    forall k | 0 <= k < |p| ensures p[k] != c {
      assert !OccursAt(p, [c], k);
      assert p[k..k + 1] == [p[k]];
    }
  }

  /** The pieces of a split at a one-character separator do not hold it. */
  lemma SplitPiecesAvoid(s: String, c: char)
    ensures forall p :: p in Split(s, [c]) ==> c !in p
  {
    SplitPiecesFree(s, [c]);
    forall p | p in Split(s, [c]) ensures c !in p {
      NoCharOccurs(p, c);
    }
  }
}
