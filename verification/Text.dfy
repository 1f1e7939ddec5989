/** The JavaScript string operations the programs rely on. */
module Text {
  import opened Wrappers

  /** The characters `String.prototype.trim` removes. */
  predicate IsSpace(c: char) {
    c in {' ', '\t', '\n', '\r', '\U{0B}', '\U{0C}', '\U{A0}', '\U{1680}', '\U{2028}',
          '\U{2029}', '\U{202F}', '\U{205F}', '\U{3000}', '\U{FEFF}'}
    || '\U{2000}' <= c <= '\U{200A}'
  }

  function TrimStart(s: string): string {
    if s != "" && IsSpace(s[0]) then TrimStart(s[1..]) else s
  }

  function TrimEnd(s: string): string {
    if s != "" && IsSpace(s[|s| - 1]) then TrimEnd(s[..|s| - 1]) else s
  }

  function Trim(s: string): string {
    TrimEnd(TrimStart(s))
  }

  /** A string without white space at either end survives trimming, and so does one followed by white space. */
  lemma TrimKeeps(s: string)
    requires s == "" || (!IsSpace(s[0]) && !IsSpace(s[|s| - 1]))
    ensures Trim(s) == s
    ensures s != "" ==> forall c | IsSpace(c) :: Trim(s + [c]) == s
  {
    forall c | s != "" && IsSpace(c)
      ensures Trim(s + [c]) == s
    {
      var t := s + [c];
      assert t[0] == s[0] && t[|t| - 1] == c && t[..|t| - 1] == s;
      assert Trim(t) == TrimEnd(t) == TrimEnd(s) == s;
    }
  }

  lemma {:induction false} TrimStartHead(s: string)
    ensures TrimStart(s) == "" || !IsSpace(TrimStart(s)[0])
  {
    if s != "" && IsSpace(s[0]) {
      TrimStartHead(s[1..]);
    }
  }

  lemma {:induction false} TrimEndTail(s: string)
    ensures TrimEnd(s) == "" || !IsSpace(TrimEnd(s)[|TrimEnd(s)| - 1])
    ensures TrimEnd(s) <= s
  {
    if s != "" && IsSpace(s[|s| - 1]) {
      TrimEndTail(s[..|s| - 1]);
    }
  }

  lemma TrimTwice(s: string)
    ensures Trim(Trim(s)) == Trim(s)
  {
    TrimStartHead(s);
    TrimEndTail(TrimStart(s));
    TrimKeeps(Trim(s));
  }

  function Split(s: string, sep: char): (parts: seq<string>)
    ensures |parts| >= 1
  {
    if s == "" then [""]
    else
      var rest := Split(s[1..], sep);
      if s[0] == sep then [""] + rest else [[s[0]] + rest[0]] + rest[1..]
  }

  function Join(parts: seq<string>, sep: char): string {
    if |parts| == 0 then ""
    else if |parts| == 1 then parts[0]
    else parts[0] + [sep] + Join(parts[1..], sep)
  }

  /** Splitting loses nothing: joining the parts gives the text back. */
  lemma {:induction false} JoinAfterSplit(s: string, sep: char)
    ensures Join(Split(s, sep), sep) == s
    ensures forall i | 0 <= i < |Split(s, sep)| :: sep !in Split(s, sep)[i]
  {
    if s != "" {
      var rest := Split(s[1..], sep);
      JoinAfterSplit(s[1..], sep);
      if s[0] == sep {
        assert ([""] + rest)[1..] == rest;
      } else {
        assert ([[s[0]] + rest[0]] + rest[1..])[1..] == rest[1..];
      }
      assert s == [s[0]] + s[1..];
    }
  }

  /** Text around one separator splits where the separator stands. */
  lemma {:induction false} SplitPrefix(head: string, tail: string, sep: char)
    requires sep !in head
    ensures Split(head, sep) == [head]
    ensures Split(head + [sep] + tail, sep) == [head] + Split(tail, sep)
  {
    var whole := head + [sep] + tail;
    if head == "" {
      assert whole[1..] == tail;
    } else {
      SplitPrefix(head[1..], tail, sep);
      assert whole[1..] == head[1..] + [sep] + tail;
      assert head == [head[0]] + head[1..];
    }
  }

  /** Joining separator-free parts is undone by splitting. */
  lemma {:induction false} SplitAfterJoin(parts: seq<string>, sep: char)
    requires |parts| >= 1
    requires forall i | 0 <= i < |parts| :: sep !in parts[i]
    ensures Split(Join(parts, sep), sep) == parts
  {
    if |parts| == 1 {
      SplitPrefix(parts[0], "", sep);
    } else {
      SplitPrefix(parts[0], Join(parts[1..], sep), sep);
      SplitAfterJoin(parts[1..], sep);
      assert parts == [parts[0]] + parts[1..];
    }
  }

  predicate IsDigit(c: char) {
    '0' <= c <= '9'
  }

  predicate AllDigits(s: string) {
    forall i | 0 <= i < |s| :: IsDigit(s[i])
  }

  function Decimal(s: string): nat
    requires AllDigits(s)
  {
    if s == "" then 0
    else Decimal(s[..|s| - 1]) * 10 + (s[|s| - 1] as int - '0' as int)
  }

  /** A number in decimal, as `String(n)` writes it. */
  function Digits(n: nat): (s: string)
    ensures s != ""
    decreases n
  {
    (if n < 10 then "" else Digits(n / 10)) + [('0' as int + n % 10) as char]
  }

  /** Reading a written number gives it back, and it takes three digits exactly below 1000. */
  lemma {:induction false} DecimalDigits(n: nat)
    ensures AllDigits(Digits(n)) && Decimal(Digits(n)) == n
    ensures |Digits(n)| <= 3 <==> n < 1000
    ensures |Digits(n)| <= 2 <==> n < 100
    ensures |Digits(n)| <= 1 <==> n < 10
    decreases n
  {
    if n >= 10 {
      DecimalDigits(n / 10);
      assert Digits(n)[..|Digits(n)| - 1] == Digits(n / 10);
    } else {
      assert Digits(n)[..0] == "";
    }
  }

  predicate AllSpace(s: string) {
    forall i | 0 <= i < |s| :: IsSpace(s[i])
  }

  /** White space on either side of a text is trimmed away with the text's own. */
  lemma {:induction false} TrimPads(before: string, s: string, after: string)
    requires AllSpace(before) && AllSpace(after)
    ensures Trim(before + s + after) == Trim(s)
    decreases |before|
  {
    if before == "" {
      assert before + s + after == s + after;
      TrimEndPads(s, after);
    } else {
      assert (before + s + after)[1..] == before[1..] + s + after;
      TrimPads(before[1..], s, after);
    }
  }

  lemma {:induction false} TrimEndPads(s: string, after: string)
    requires AllSpace(after)
    ensures Trim(s + after) == Trim(s)
    decreases |s|
  {
    if s == "" {
      assert s + after == after;
      AllSpaceTrims(after);
    } else if IsSpace(s[0]) {
      assert (s + after)[1..] == s[1..] + after;
      TrimEndPads(s[1..], after);
    } else {
      TrimEndDrops(s, after);
    }
  }

  lemma {:induction false} AllSpaceTrims(s: string)
    requires AllSpace(s)
    ensures Trim(s) == ""
  {
    if s != "" {
      AllSpaceTrims(s[1..]);
    }
  }

  lemma {:induction false} TrimEndDrops(s: string, after: string)
    requires AllSpace(after)
    ensures TrimEnd(s + after) == TrimEnd(s)
    decreases |after|
  {
    if after == "" {
      assert s + after == s;
    } else {
      var last := |after| - 1;
      assert (s + after)[..|s + after| - 1] == s + after[..last];
      TrimEndDrops(s, after[..last]);
    }
  }

  /** Trimming the end looks no further than the last character that is no white space. */
  lemma {:induction false} TrimEndOfTail(head: string, tail: string)
    requires head != "" && !IsSpace(head[|head| - 1])
    ensures TrimEnd(head + tail) == head + TrimEnd(tail)
    decreases |tail|
  {
    if tail == "" {
      assert head + tail == head && head + TrimEnd(tail) == head;
    } else if IsSpace(tail[|tail| - 1]) {
      assert (head + tail)[..|head + tail| - 1] == head + tail[..|tail| - 1];
      TrimEndOfTail(head, tail[..|tail| - 1]);
    }
  }
}
