/** Quoting SQL identifiers and literals, and reading them back the way PostgreSQL does. */
module Quoting {
  import opened Wrappers

  /** `value.replaceAll(q, q + q)` */
  function Doubled(value: string, q: char): string {
    if value == "" then ""
    else (if value[0] == q then [q, q] else [value[0]]) + Doubled(value[1..], q)
  }

  function Quote(value: string, q: char): string {
    [q] + Doubled(value, q) + [q]
  }

  function QuoteIdentifier(value: string): string {
    Quote(value, '"')
  }

  function QuoteLiteral(value: string): string {
    Quote(value, '\'')
  }

  /** Reads up to the closing quote, two quotes standing for one; what follows it is returned too. */
  function ReadInside(text: string, q: char): Option<(string, string)> {
    if text == "" then None
    else if text[0] != q then
      (match ReadInside(text[1..], q)
       case None => None
       case Some(r) => Some(([text[0]] + r.0, r.1)))
    else if |text| >= 2 && text[1] == q then
      (match ReadInside(text[2..], q)
       case None => None
       case Some(r) => Some(([q] + r.0, r.1)))
    else Some(("", text[1..]))
  }

  function ReadQuoted(text: string, q: char): Option<(string, string)> {
    if text == "" || text[0] != q then None else ReadInside(text[1..], q)
  }

  lemma {:induction false} InsideReadsBack(value: string, q: char, rest: string)
    requires rest == "" || rest[0] != q
    ensures ReadInside(Doubled(value, q) + [q] + rest, q) == Some((value, rest))
  {
    var text := Doubled(value, q) + [q] + rest;
    if value == "" {
      assert text == [q] + rest && text[1..] == rest;
    } else {
      InsideReadsBack(value[1..], q, rest);
      var tail := Doubled(value[1..], q) + [q] + rest;
      assert value == [value[0]] + value[1..];
      if value[0] == q {
        assert text == [q, q] + tail && text[2..] == tail;
      } else {
        assert text == [value[0]] + tail && text[1..] == tail;
      }
    }
  }

  /**
   Whatever characters a value contains, its quoted form is read back as that value, and reading stops
   exactly where the quoted form ends.
   */
  lemma QuotedReadsBack(value: string, q: char, rest: string)
    requires rest == "" || rest[0] != q
    ensures ReadQuoted(Quote(value, q) + rest, q) == Some((value, rest))
  {
    InsideReadsBack(value, q, rest);
    assert (Quote(value, q) + rest)[1..] == Doubled(value, q) + [q] + rest;
  }
}
