/** The Python `str` operations the answer-selection code relies on, over
    strings of Unicode scalar values: `str.isspace`, the `in` operator,
    `str.split(sep)`, `str.split()`, `str.upper` and `str.count`. */
module Text {
  import opened Wrappers

  /** Python's `str.isspace` for one character: the characters that
      `str.split()` treats as white space. */
  predicate IsSpace(c: char) {
    var n := c as int;
    || n == 0x20 || 0x09 <= n <= 0x0D || 0x1C <= n <= 0x1F || n == 0x85 || n == 0xA0
    || n == 0x1680 || 0x2000 <= n <= 0x200A || n == 0x2028 || n == 0x2029
    || n == 0x202F || n == 0x205F || n == 0x3000
  }

  predicate SpaceFree(s: string) {
    forall i :: 0 <= i < |s| ==> !IsSpace(s[i])
  }

  predicate AllSpace(s: string) {
    forall i :: 0 <= i < |s| ==> IsSpace(s[i])
  }

  /** `sub` occurs in `s` starting at index `i`. */
  predicate OccursAt(s: string, sub: string, i: int) {
    0 <= i && i + |sub| <= |s| && s[i..i + |sub|] == sub
  }

  /** Python's `sub in s`. */
  predicate Contains(s: string, sub: string) {
    exists i :: 0 <= i <= |s| && OccursAt(s, sub, i)
  }

  // ---------------------------------------------------------------------
  // Searching and splitting on a separator

  /** The first index at or after `from` where `sep` occurs in `s`. */
  function FindFrom(s: string, sep: string, from: nat): (r: Option<nat>)
    ensures r.Some? ==> from <= r.value && OccursAt(s, sep, r.value)
    ensures r.Some? ==> forall j :: from <= j < r.value ==> !OccursAt(s, sep, j)
    ensures r.None? ==> forall j :: from <= j ==> !OccursAt(s, sep, j)
    decreases |s| - from
  {
    if from + |sep| > |s| then None
    else if s[from..from + |sep|] == sep then Some(from)
    else FindFrom(s, sep, from + 1)
  }

  /** The index of the first occurrence of `sep` in `s`, if any. */
  function Find(s: string, sep: string): (r: Option<nat>)
    ensures r.Some? <==> Contains(s, sep)
    ensures r.Some? ==> OccursAt(s, sep, r.value)
    ensures r.Some? ==> forall j :: 0 <= j < r.value ==> !OccursAt(s, sep, j)
  {
    var r := FindFrom(s, sep, 0);
    assert r.Some? ==> OccursAt(s, sep, r.value) && r.value <= |s|;
    r
  }

  /** Python's `s.split(sep)` for a non-empty separator: the pieces of `s`
      between the non-overlapping occurrences of `sep`, found left to right. */
  function Split(s: string, sep: string): (pieces: seq<string>)
    requires sep != []
    ensures |pieces| >= 1
    decreases |s|
  {
    match Find(s, sep)
    case None => [s]
    case Some(i) => [s[..i]] + Split(s[i + |sep|..], sep)
  }

  /** Python's `sep.join(pieces)`. */
  function Join(pieces: seq<string>, sep: string): string
    requires |pieces| >= 1
  {
    if |pieces| == 1 then pieces[0] else pieces[0] + sep + Join(pieces[1..], sep)
  }

  /** Splitting and joining again gives back the original string. */
  lemma {:induction false} JoinSplit(s: string, sep: string)
    requires sep != []
    ensures Join(Split(s, sep), sep) == s
    decreases |s|
  {
    var pieces := Split(s, sep);
    match Find(s, sep)
    case None =>
    case Some(i) =>
      var rest := s[i + |sep|..];
      var tail := Split(rest, sep);
      JoinSplit(rest, sep);
      assert pieces == [s[..i]] + tail;
      assert pieces[1..] == tail;
      assert Join(pieces, sep) == s[..i] + sep + Join(tail, sep);
      assert s[i..i + |sep|] == sep;
      assert s == s[..i] + s[i..i + |sep|] + rest;
  }

  /** There is a second piece exactly when the separator occurs; the first
      piece is everything before the first occurrence, or the whole string. */
  lemma SplitHead(s: string, sep: string)
    requires sep != []
    ensures |Split(s, sep)| >= 2 <==> Contains(s, sep)
    ensures !Contains(s, sep) ==> Split(s, sep)[0] == s
    ensures Contains(s, sep) ==> OccursAt(s, sep, |Split(s, sep)[0]|)
    ensures Contains(s, sep) ==> Split(s, sep)[0] == s[..|Split(s, sep)[0]|]
    ensures !Contains(Split(s, sep)[0], sep)
  {
    var head := Split(s, sep)[0];
    match Find(s, sep)
    case None =>
    case Some(i) =>
      assert head == s[..i];
      forall j | 0 <= j <= |head| ensures !OccursAt(head, sep, j) {
        if j + |sep| <= |head| {
          assert forall k :: j <= k < j + |sep| ==> head[k] == s[k];
          assert head[j..j + |sep|] == s[j..j + |sep|];
          assert !OccursAt(s, sep, j);
        }
      }
  }

  /** A separator that starts with white space cannot start inside a
      white-space-free prefix, so that prefix is the whole first piece. */
  lemma SplitAfterWord(u: string, v: string, sep: string)
    requires sep != [] && IsSpace(sep[0]) && SpaceFree(u)
    requires v == [] || OccursAt(v, sep, 0)
    ensures Split(u + v, sep)[0] == u
    ensures v != [] ==> Split(u + v, sep) == [u] + Split(v[|sep|..], sep)
  {
    FindAfterWord(u, v, sep);
    var s := u + v;
    if v == [] {
      assert s == u;
    } else {
      assert s[..|u|] == u;
      assert s[|u| + |sep|..] == v[|sep|..];
    }
  }

  /** A white-space-free word followed by the separator is split off as
      the first piece. */
  lemma SplitAfterSeparatedWord(word: string, sep: string, rest: string)
    requires sep != [] && IsSpace(sep[0]) && SpaceFree(word)
    ensures Split(word + sep + rest, sep) == [word] + Split(rest, sep)
  {
    var after := sep + rest;
    assert after[..|sep|] == sep;
    assert after[|sep|..] == rest;
    assert word + sep + rest == word + after;
    SplitAfterWord(word, after, sep);
  }

  lemma FindAfterWord(u: string, v: string, sep: string)
    requires sep != [] && IsSpace(sep[0]) && SpaceFree(u)
    requires v == [] || OccursAt(v, sep, 0)
    ensures Find(u + v, sep) == if v == [] then None else Some(|u|)
  {
    NoOccurrenceInWord(u, v, sep);
    var s := u + v;
    if v == [] {
      assert s == u;
    } else {
      assert s[|u|..|u| + |sep|] == v[..|sep|];
      assert OccursAt(s, sep, |u|);
    }
  }

  lemma NoOccurrenceInWord(u: string, v: string, sep: string)
    requires sep != [] && IsSpace(sep[0]) && SpaceFree(u)
    ensures forall j :: 0 <= j < |u| ==> !OccursAt(u + v, sep, j)
  {
    assert forall j :: 0 <= j < |u| ==> (u + v)[j] == u[j];
  }

  // ---------------------------------------------------------------------
  // Splitting on white space

  /** `s` without its leading white space (Python's `lstrip()`). */
  function TrimStart(s: string): (t: string)
    ensures |t| <= |s|
    ensures t == [] || !IsSpace(t[0])
  {
    if s != [] && IsSpace(s[0]) then TrimStart(s[1..]) else s
  }

  /** What `TrimStart` removes is white space, and it removes only a prefix. */
  lemma {:induction false} TrimStartShape(s: string)
    ensures TrimStart(s) == s[|s| - |TrimStart(s)|..]
    ensures AllSpace(s[..|s| - |TrimStart(s)|])
  {
    if s != [] && IsSpace(s[0]) {
      TrimStartShape(s[1..]);
    }
  }

  /** The length of the longest prefix of `s` that holds no white space. */
  function WordLength(s: string): (n: nat)
    ensures n <= |s| && SpaceFree(s[..n]) && (n == |s| || IsSpace(s[n]))
  {
    if s == [] || IsSpace(s[0]) then 0 else 1 + WordLength(s[1..])
  }

  /** Python's `s.split()` with no argument: the maximal runs of
      non-white-space characters, left to right. */
  function Words(s: string): seq<string>
    decreases |s|
  {
    var t := TrimStart(s);
    if t == [] then []
    else
      var n := WordLength(t);
      [t[..n]] + Words(t[n..])
  }

  /** Every word is non-empty and holds no white space. */
  lemma {:induction false} WordsShape(s: string)
    ensures forall k :: 0 <= k < |Words(s)| ==> Words(s)[k] != [] && SpaceFree(Words(s)[k])
    decreases |s|
  {
    var t := TrimStart(s);
    if t != [] {
      var n := WordLength(t);
      var ws, more := Words(s), Words(t[n..]);
      assert ws == [t[..n]] + more;
      WordsShape(t[n..]);
      forall k | 0 <= k < |ws| ensures ws[k] != [] && SpaceFree(ws[k]) {
        if k > 0 {
          assert ws[k] == more[k - 1];
        }
      }
    }
  }

  /** A string has no words exactly when it is all white space. */
  lemma WordsEmpty(s: string)
    ensures Words(s) == [] <==> AllSpace(s)
  {
    TrimStartShape(s);
    var t := TrimStart(s);
    if t != [] {
      assert s[|s| - |t|] == t[0];
    }
  }

  /** The first word is the white-space-free run that starts at the first
      non-space character and ends at the next space or at the end. */
  lemma WordsHead(lead: string, word: string, rest: string)
    requires AllSpace(lead) && word != [] && SpaceFree(word)
    requires rest == [] || IsSpace(rest[0])
    ensures Words(lead + word + rest) != []
    ensures Words(lead + word + rest)[0] == word
  {
    WordsAfterLead(lead, word, rest);
  }

  lemma WordsAfterLead(lead: string, word: string, rest: string)
    requires AllSpace(lead) && word != [] && SpaceFree(word)
    requires rest == [] || IsSpace(rest[0])
    ensures Words(lead + word + rest) == [word] + Words(rest)
  {
    assert lead + word + rest == lead + (word + rest);
    LeadingSpaceIgnored(lead, word + rest);
    WordsCons(word, rest);
  }

  /** Joining words with single spaces and splitting on white space gives
      the words back. */
  lemma {:induction false} WordsJoin(ws: seq<string>)
    requires |ws| >= 1
    requires forall k :: 0 <= k < |ws| ==> ws[k] != [] && SpaceFree(ws[k])
    ensures Words(Join(ws, " ")) == ws
  {
    var w := ws[0];
    if |ws| == 1 {
      calc {
        Words(Join(ws, " "));
        { assert Join(ws, " ") == w + []; }
        Words(w + []);
        { WordsCons(w, []); }
        [w] + Words([]);
        { assert TrimStart([]) == []; }
        [w];
      }
      assert [w] == ws;
    } else {
      var more := ws[1..];
      var tail := Join(more, " ");
      calc {
        Words(Join(ws, " "));
        { assert Join(ws, " ") == w + (" " + tail); }
        Words(w + (" " + tail));
        { WordsCons(w, " " + tail); }
        [w] + Words(" " + tail);
        { LeadingSpaceIgnored(" ", tail); }
        [w] + Words(tail);
        { WordsJoin(more); }
        [w] + more;
      }
      assert [w] + more == ws;
    }
  }

  /** A word followed by white space or the end is split off first. */
  lemma WordsCons(word: string, rest: string)
    requires word != [] && SpaceFree(word)
    requires rest == [] || IsSpace(rest[0])
    ensures Words(word + rest) == [word] + Words(rest)
  {
    var s := word + rest;
    assert s[0] == word[0];
    assert TrimStart(s) == s;
    WordLengthOf(word, rest);
    assert s[..|word|] == word;
    assert s[|word|..] == rest;
  }

  lemma LeadingSpaceIgnored(lead: string, s: string)
    requires AllSpace(lead)
    ensures Words(lead + s) == Words(s)
  {
    TrimStartAfterSpace(lead, s);
  }

  lemma {:induction false} TrimStartAfterSpace(lead: string, s: string)
    requires AllSpace(lead)
    ensures TrimStart(lead + s) == TrimStart(s)
    decreases |lead|
  {
    if lead == [] {
      assert lead + s == s;
    } else {
      assert (lead + s)[0] == lead[0];
      assert (lead + s)[1..] == lead[1..] + s;
      assert TrimStart(lead + s) == TrimStart(lead[1..] + s);
      TrimStartAfterSpace(lead[1..], s);
    }
  }

  lemma {:induction false} WordLengthOf(word: string, rest: string)
    requires SpaceFree(word)
    requires rest == [] || IsSpace(rest[0])
    ensures WordLength(word + rest) == |word|
    decreases |word|
  {
    if word == [] {
      assert word + rest == rest;
    } else {
      assert (word + rest)[0] == word[0];
      assert (word + rest)[1..] == word[1..] + rest;
      WordLengthOf(word[1..], rest);
    }
  }

  // ---------------------------------------------------------------------
  // Case conversion

  /** Upper case of one character; only the ASCII letters change. */
  function UpperChar(c: char): (u: char)
    ensures !('a' <= u <= 'z')
    ensures !('a' <= c <= 'z') ==> u == c
  {
    if 'a' <= c <= 'z' then (c as int - 32) as char else c
  }

  /** Python's `str.upper`, for the ASCII letters. */
  function Upper(s: string): (u: string)
    ensures |u| == |s|
    ensures forall i :: 0 <= i < |u| ==> !('a' <= u[i] <= 'z')
    ensures forall i :: 0 <= i < |s| && 'a' <= s[i] <= 'z' ==> u[i] as int == s[i] as int - 32
    ensures forall i :: 0 <= i < |s| && !('a' <= s[i] <= 'z') ==> u[i] == s[i]
  {
    seq(|s|, i requires 0 <= i < |s| => UpperChar(s[i]))
  }

  /** Upper-casing twice is upper-casing once. */
  lemma UpperIdempotent(s: string)
    ensures Upper(Upper(s)) == Upper(s)
  {
  }

  // ---------------------------------------------------------------------
  // Counting

  /** Python's `s.count(sub)`: the occurrences of `sub` in `s` that do not
      overlap, taken greedily from the left; an empty `sub` is counted at
      each of the |s| + 1 positions. */
  function Count(s: string, sub: string): nat
    decreases |s|
  {
    if sub == [] then |s| + 1
    else if |s| < |sub| then 0
    else if s[..|sub|] == sub then 1 + Count(s[|sub|..], sub)
    else Count(s[1..], sub)
  }

  /** A non-empty text is counted at least once exactly when it occurs. */
  lemma {:induction false} CountPositive(s: string, sub: string)
    requires sub != []
    ensures Count(s, sub) > 0 <==> Contains(s, sub)
    decreases |s|
  {
    if |s| < |sub| {
    } else if s[..|sub|] == sub {
      assert OccursAt(s, sub, 0);
    } else {
      CountPositive(s[1..], sub);
      if Contains(s, sub) {
        var i :| 0 <= i <= |s| && OccursAt(s, sub, i);
        assert i != 0;
        assert s[1..][i - 1..i - 1 + |sub|] == s[i..i + |sub|];
        assert OccursAt(s[1..], sub, i - 1);
      }
      if Contains(s[1..], sub) {
        var i :| 0 <= i <= |s[1..]| && OccursAt(s[1..], sub, i);
        assert s[1..][i..i + |sub|] == s[i + 1..i + 1 + |sub|];
        assert OccursAt(s, sub, i + 1);
      }
    }
  }

  lemma MulStep(c: nat, m: nat)
    ensures (1 + c) * m == m + c * m
  {
  }

  /** Non-overlapping occurrences of a non-empty text fit in the string. */
  lemma {:induction false} CountBound(s: string, sub: string)
    requires sub != []
    ensures Count(s, sub) * |sub| <= |s|
    decreases |s|
  {
    if |s| < |sub| {
    } else if s[..|sub|] == sub {
      var c := Count(s[|sub|..], sub);
      CountBound(s[|sub|..], sub);
      MulStep(c, |sub|);
    } else {
      CountBound(s[1..], sub);
    }
  }
}
