/** Canonical lists of allowed addresses: trimmed, non-empty, without duplicates, sorted, joined by commas. */
module IpGroup {
  import opened Lifecycle
  import opened Wrappers
  import opened Text

  /** JavaScript's order on strings: by the first character that differs. */
  predicate Before(a: string, b: string) {
    b != "" && (a == "" || a[0] < b[0] || (a[0] == b[0] && Before(a[1..], b[1..])))
  }

  lemma {:induction false} BeforeIsTotal(a: string, b: string)
    ensures a == b || Before(a, b) || Before(b, a)
    ensures !(Before(a, b) && Before(b, a)) && !Before(a, a)
  {
    if a != "" && b != "" {
      BeforeIsTotal(a[1..], b[1..]);
      assert a == [a[0]] + a[1..] && b == [b[0]] + b[1..];
    }
    if a != "" {
      BeforeIsTotal(a[1..], a[1..]);
    }
  }

  lemma {:induction false} BeforeIsTransitive(a: string, b: string, c: string)
    requires Before(a, b) && Before(b, c)
    ensures Before(a, c)
  {
    if a != "" && a[0] == b[0] && b[0] == c[0] {
      BeforeIsTransitive(a[1..], b[1..], c[1..]);
    }
  }

  // ---- Normalizing ----

  /** `ips.map(trim).filter(nonEmpty)` */
  function Trimmed(ips: seq<string>): seq<string> {
    if ips == [] then []
    else (if Trim(ips[0]) != "" then [Trim(ips[0])] else []) + Trimmed(ips[1..])
  }

  /** `[...new Set(xs)]`: the first of equal elements stays. */
  function Distinct(xs: seq<string>): seq<string> {
    if xs == [] then []
    else
      var before, last := Distinct(xs[..|xs| - 1]), xs[|xs| - 1];
      if last in before then before else before + [last]
  }

  function Insert(x: string, xs: seq<string>): seq<string> {
    if xs == [] || Before(x, xs[0]) then [x] + xs else [xs[0]] + Insert(x, xs[1..])
  }

  function Sort(xs: seq<string>): seq<string> {
    if xs == [] then [] else Insert(xs[0], Sort(xs[1..]))
  }

  function Normalize(ips: seq<string>): seq<string> {
    Sort(Distinct(Trimmed(ips)))
  }

  /** Whether an address list names `x`. */
  ghost predicate Names(ips: seq<string>, x: string) {
    x != "" && exists i | 0 <= i < |ips| :: Trim(ips[i]) == x
  }

  ghost predicate Ascending(xs: seq<string>) {
    forall i, j | 0 <= i < j < |xs| :: Before(xs[i], xs[j])
  }

  ghost predicate NoRepeats(xs: seq<string>) {
    forall i, j | 0 <= i < j < |xs| :: xs[i] != xs[j]
  }

  lemma {:induction false} TrimmedHolds(ips: seq<string>, x: string)
    ensures x in Trimmed(ips) <==> Names(ips, x)
  {
    if ips != [] {
      TrimmedHolds(ips[1..], x);
      assert Names(ips, x) <==> (x != "" && Trim(ips[0]) == x) || Names(ips[1..], x) by {
        if Names(ips, x) {
          var i :| 0 <= i < |ips| && Trim(ips[i]) == x;
          assert i > 0 ==> ips[1..][i - 1] == ips[i];
        }
        if Names(ips[1..], x) {
          var i :| 0 <= i < |ips[1..]| && Trim(ips[1..][i]) == x;
          assert ips[i + 1] == ips[1..][i];
        }
      }
    }
  }

  lemma {:induction false} DistinctHolds(xs: seq<string>)
    ensures NoRepeats(Distinct(xs))
    ensures forall x :: x in Distinct(xs) <==> x in xs
  {
    if xs != [] {
      DistinctHolds(xs[..|xs| - 1]);
      assert xs == xs[..|xs| - 1] + [xs[|xs| - 1]];
    }
  }

  lemma {:induction false} InsertAscends(x: string, xs: seq<string>)
    requires Ascending(xs) && x !in xs
    ensures Ascending(Insert(x, xs))
    ensures forall y :: y in Insert(x, xs) <==> y == x || y in xs
  {
    if xs != [] && !Before(x, xs[0]) {
      var rest := xs[1..];
      InsertAscends(x, rest);
      BeforeIsTotal(x, xs[0]);
      var tail := Insert(x, rest);
      assert xs == [xs[0]] + rest;
      forall k | 0 <= k < |tail|
        ensures Before(xs[0], tail[k])
      {
        assert tail[k] in tail;
        if tail[k] != x {
          var j :| 0 <= j < |rest| && rest[j] == tail[k];
          assert xs[j + 1] == rest[j];
        }
      }
    } else if xs != [] {
      forall k | 0 <= k < |xs|
        ensures Before(x, xs[k])
      {
        if k > 0 {
          BeforeIsTransitive(x, xs[0], xs[k]);
        }
      }
    }
  }

  lemma {:induction false} SortAscends(xs: seq<string>)
    requires NoRepeats(xs)
    ensures Ascending(Sort(xs))
    ensures forall x :: x in Sort(xs) <==> x in xs
  {
    if xs != [] {
      SortAscends(xs[1..]);
      assert xs == [xs[0]] + xs[1..];
      assert forall i | 0 <= i < |xs[1..]| :: xs[1..][i] == xs[i + 1];
      InsertAscends(xs[0], Sort(xs[1..]));
    }
  }

  /** The canonical list: ascending, and naming exactly what the given list names. */
  lemma NormalizeIsCanonical(ips: seq<string>)
    ensures Ascending(Normalize(ips))
    ensures forall x :: x in Normalize(ips) <==> Names(ips, x)
  {
    DistinctHolds(Trimmed(ips));
    SortAscends(Distinct(Trimmed(ips)));
    forall x
      ensures x in Normalize(ips) <==> Names(ips, x)
    {
      TrimmedHolds(ips, x);
    }
  }

  /** An ascending list is determined by what it holds. */
  lemma {:induction false} AscendingIsUnique(xs: seq<string>, ys: seq<string>)
    requires Ascending(xs) && Ascending(ys) && forall x :: x in xs <==> x in ys
    ensures xs == ys
    decreases |xs|
  {
    assert xs != [] ==> xs[0] in xs;
    assert ys != [] ==> ys[0] in ys;
    if xs != [] {
      assert xs[0] in ys && ys[0] in xs;
      var i :| 0 <= i < |ys| && ys[i] == xs[0];
      var j :| 0 <= j < |xs| && xs[j] == ys[0];
      BeforeIsTotal(xs[0], ys[0]);
      assert xs[0] == ys[0];
      RestHolds(xs, ys);
      AscendingIsUnique(xs[1..], ys[1..]);
    }
  }

  lemma RestHolds(xs: seq<string>, ys: seq<string>)
    requires xs != [] && ys != [] && xs[0] == ys[0] && Ascending(xs) && Ascending(ys)
    requires forall x :: x in xs <==> x in ys
    ensures forall x :: x in xs[1..] <==> x in ys[1..]
  {
    forall x
      ensures x in xs[1..] <==> x in xs && x != xs[0]
      ensures x in ys[1..] <==> x in ys && x != ys[0]
    {
      BeforeIsTotal(xs[0], xs[0]);
      assert xs == [xs[0]] + xs[1..] && ys == [ys[0]] + ys[1..];
    }
  }

  /** A canonical list names just its own elements. */
  lemma CanonicalNames(ips: seq<string>, x: string)
    ensures Names(Normalize(ips), x) <==> x in Normalize(ips)
  {
    NormalizeIsCanonical(ips);
    var n := Normalize(ips);
    forall i | 0 <= i < |n|
      ensures Trim(n[i]) == n[i] && n[i] != ""
    {
      assert n[i] in n;
      var j :| 0 <= j < |ips| && Trim(ips[j]) == n[i];
      TrimTwice(ips[j]);
    }
  }

  lemma NormalizeIsIdempotent(ips: seq<string>)
    ensures Normalize(Normalize(ips)) == Normalize(ips)
  {
    NormalizeIsCanonical(ips);
    NormalizeIsCanonical(Normalize(ips));
    forall x
      ensures x in Normalize(Normalize(ips)) <==> x in Normalize(ips)
    {
      CanonicalNames(ips, x);
    }
    AscendingIsUnique(Normalize(Normalize(ips)), Normalize(ips));
  }

  // ---- Comparing ----

  function Joined(ips: seq<string>): string {
    Join(Normalize(ips), ',')
  }

  predicate SameIps(left: seq<string>, right: seq<string>) {
    Joined(left) == Joined(right)
  }

  predicate CommaFree(ips: seq<string>) {
    forall i | 0 <= i < |ips| :: ',' !in ips[i]
  }

  ghost predicate SameNames(left: seq<string>, right: seq<string>) {
    forall x :: Names(left, x) <==> Names(right, x)
  }

  lemma {:induction false} TrimKeepsCommaFree(s: string)
    requires ',' !in s
    ensures ',' !in Trim(s)
  {
    TrimStartIn(s);
    TrimEndTail(TrimStart(s));
  }

  lemma {:induction false} TrimStartIn(s: string)
    ensures forall c | c in TrimStart(s) :: c in s
  {
    if s != "" && IsSpace(s[0]) {
      TrimStartIn(s[1..]);
    }
  }

  /** The canonical list of a comma-free one is comma-free, and no entry is empty. */
  lemma CanonicalEntries(ips: seq<string>)
    requires CommaFree(ips)
    ensures CommaFree(Normalize(ips)) && "" !in Normalize(ips)
  {
    NormalizeIsCanonical(ips);
    forall i | 0 <= i < |Normalize(ips)|
      ensures ',' !in Normalize(ips)[i]
    {
      assert Normalize(ips)[i] in Normalize(ips);
      var j :| 0 <= j < |ips| && Trim(ips[j]) == Normalize(ips)[i];
      TrimKeepsCommaFree(ips[j]);
    }
  }

  /** Splitting the joined canonical list gives it back. */
  lemma JoinedSplitsBack(ips: seq<string>)
    requires CommaFree(ips) && Normalize(ips) != []
    ensures Split(Joined(ips), ',') == Normalize(ips)
  {
    CanonicalEntries(ips);
    SplitAfterJoin(Normalize(ips), ',');
  }

  lemma EmptyJoins(ips: seq<string>)
    requires CommaFree(ips)
    ensures Joined(ips) == "" <==> Normalize(ips) == []
  {
    CanonicalEntries(ips);
    assert Normalize(ips) != [] ==> Normalize(ips)[0] in Normalize(ips);
  }

  lemma SameNamesSameList(left: seq<string>, right: seq<string>)
    ensures SameNames(left, right) <==> Normalize(left) == Normalize(right)
  {
    NormalizeIsCanonical(left);
    NormalizeIsCanonical(right);
    if SameNames(left, right) {
      AscendingIsUnique(Normalize(left), Normalize(right));
    }
  }

  /** For comma-free entries the comparison holds exactly when both lists name the same addresses. */
  lemma SameIpsIff(left: seq<string>, right: seq<string>)
    requires CommaFree(left) && CommaFree(right)
    ensures SameIps(left, right) <==> SameNames(left, right)
  {
    SameNamesSameList(left, right);
    EmptyJoins(left);
    EmptyJoins(right);
    if SameIps(left, right) && Normalize(left) != [] {
      JoinedSplitsBack(left);
      JoinedSplitsBack(right);
    }
  }

  // ---- Reconciling ----

  function ObservedIps(stored: string): seq<string> {
    Normalize(Split(stored, ','))
  }

  /**
   The group as reads show it, if it exists. A write shows only after `lag` more reads, as the text the
   service then gives back for it.
   */
  datatype Group = Group(shown: Option<string>, coming: Option<string>, lag: nat)

  function Look(g: Group): (Group, Answer<Option<string>>) {
    if g.coming.None? then (g, Value(g.shown))
    else if g.lag == 0 then (Group(g.coming, None, 0), Value(g.coming))
    else (g.(lag := g.lag - 1), Value(g.shown))
  }

  function Read(): Group -> (Group, Answer<Option<string>>) {
    (g: Group) => Look(g)
  }

  /** What both the decision to write and the wait after it ask of a read. */
  predicate Agrees(shown: Option<string>, ips: seq<string>) {
    shown.Some? && SameIps(ObservedIps(shown.value), Normalize(ips))
  }

  function Ready(ips: seq<string>): Option<string> -> bool {
    (shown: Option<string>) => Agrees(shown, ips)
  }

  datatype Outcome = NeedsAddress | Settled(wrote: bool) | WaitTimeout(wrote: bool)

  /**
   One reconcile: read, cover the group if it disagrees, and wait until a read agrees. `readBack` and `lag`
   are how the service shows the write, should there be one.
   */
  function Reconcile(g: Group, ips: seq<string>, readBack: string, lag: nat, attempts: nat): (Group, Outcome)
    requires attempts >= 1
  {
    if Normalize(ips) == [] then
      (g, NeedsAddress)
    else
      var (seen, first) := Look(g);
      var wrote := !Agrees(first.value, ips);
      var covered := if wrote then Group(seen.shown, Some(readBack), lag) else seen;
      var (last, result) := WaitFor(covered, Read(), Ready(ips), attempts);
      (last, if result.Ok? then Settled(wrote) else WaitTimeout(wrote))
  }

  /** What a non-empty list writes, as the read-back is taken apart again. */
  function WrittenParts(ips: seq<string>): seq<string> {
    Split(Joined(ips), ',')
  }

  /** Ascending, and every part trimmed and non-empty. */
  ghost predicate Canonical(parts: seq<string>) {
    Ascending(parts) && forall i | 0 <= i < |parts| :: parts[i] != "" && Trim(parts[i]) == parts[i]
  }

  /** A canonical list is its own normal form. */
  lemma CanonicalIsNormal(parts: seq<string>)
    ensures Canonical(parts) <==> Normalize(parts) == parts
  {
    NormalizeIsCanonical(parts);
    if Canonical(parts) {
      forall x
        ensures x in Normalize(parts) <==> x in parts
      {
        assert Names(parts, x) <==> x in parts by {
          if x in parts {
            var i :| 0 <= i < |parts| && parts[i] == x;
            assert Trim(parts[i]) == x;
          }
        }
      }
      AscendingIsUnique(Normalize(parts), parts);
    }
    if Normalize(parts) == parts {
      forall i | 0 <= i < |parts|
        ensures parts[i] != "" && Trim(parts[i]) == parts[i]
      {
        assert parts[i] in parts && Names(parts, parts[i]);
        var j :| 0 <= j < |parts| && Trim(parts[j]) == parts[i];
        TrimTwice(parts[j]);
      }
    }
  }

  lemma JoinIsEmptyIff(parts: seq<string>)
    requires "" !in parts
    ensures Join(parts, ',') == "" <==> parts == []
  {
    assert parts != [] ==> parts[0] in parts;
  }

  /** No entry of a normal form is empty. */
  lemma NormalEntries(ips: seq<string>)
    ensures "" !in Normalize(ips)
  {
    NormalizeIsCanonical(ips);
  }

  lemma NormalCommaFree(parts: seq<string>)
    requires CommaFree(parts)
    ensures CommaFree(Normalize(parts))
  {
    CanonicalEntries(parts);
  }

  /** Comma-free parts join back to the text they were split from exactly when normalizing leaves them alone. */
  lemma NormalJoinsBackIff(text: string)
    requires text != ""
    ensures Join(Normalize(Split(text, ',')), ',') == text <==> Canonical(Split(text, ','))
  {
    var parts := Split(text, ',');
    JoinAfterSplit(text, ',');
    CanonicalIsNormal(parts);
    NormalCommaFree(parts);
    NormalEntries(parts);
    JoinIsEmptyIff(Normalize(parts));
    if Join(Normalize(parts), ',') == text {
      SplitAfterJoin(Normalize(parts), ',');
    }
  }

  /**
   A shown text agrees with a non-empty list exactly when it names the addresses of the text the list
   writes, in whatever order and spacing, and that text, split at its commas, is canonical as it stands.
   */
  lemma AgreesIff(ips: seq<string>, shown: string)
    requires Normalize(ips) != []
    ensures Agrees(Some(shown), ips) <==>
            Canonical(WrittenParts(ips)) && SameNames(Split(shown, ','), WrittenParts(ips))
  {
    NormalizeIsIdempotent(ips);
    NormalizeIsIdempotent(Split(shown, ','));
    NormalEntries(ips);
    JoinIsEmptyIff(Normalize(ips));
    NormalJoinsBackIff(Joined(ips));
    SameNamesSameList(Split(shown, ','), WrittenParts(ips));
    if Agrees(Some(shown), ips) {
      JoinAfterSplit(shown, ',');
      NormalCommaFree(Split(shown, ','));
      NormalEntries(Split(shown, ','));
      JoinIsEmptyIff(ObservedIps(shown));
      SplitAfterJoin(ObservedIps(shown), ',');
      CanonicalIsNormal(WrittenParts(ips));
    }
  }

  /** A group with no write on its way shows the same at every read. */
  lemma {:induction false} WaitSettled(g: Group, ready: Option<string> -> bool, attempts: nat)
    requires attempts >= 1 && g.coming.None?
    ensures var (last, result) := WaitFor(g, Read(), ready, attempts);
            last == g && (result.Ok? <==> ready(g.shown))
    decreases attempts
  {
    assert Read()(g) == (g, Value(g.shown));
    if attempts > 1 && !ready(g.shown) {
      WaitSettled(g, ready, attempts - 1);
    }
  }

  /** After a write the wait ends well exactly when what is coming is ready and comes in time. */
  lemma {:induction false} WaitForWrite(g: Group, ready: Option<string> -> bool, attempts: nat)
    requires attempts >= 1 && g.coming.Some? && !ready(g.shown)
    ensures var (last, result) := WaitFor(g, Read(), ready, attempts);
            && (result.Ok? <==> ready(g.coming) && g.lag < attempts)
            && (g.lag < attempts ==> last == Group(g.coming, None, 0))
    decreases attempts
  {
    var (next, _) := Read()(g);
    if attempts > 1 {
      if g.lag == 0 {
        WaitSettled(next, ready, attempts - 1);
      } else {
        WaitForWrite(next, ready, attempts - 1);
      }
    }
  }

  /** The service shows a write by naming the written addresses, in whatever order and spacing. */
  ghost predicate ShowsWrite(ips: seq<string>, readBack: string) {
    SameNames(Split(readBack, ','), WrittenParts(ips))
  }

  /**
   A reconcile that has to write a non-empty list succeeds exactly when the write shows in time and the
   written text, split at its commas, is canonical as it stands; otherwise it times out.
   */
  lemma WriteSucceedsIff(g: Group, ips: seq<string>, readBack: string, lag: nat, attempts: nat)
    requires attempts >= 1 && Normalize(ips) != [] && g.coming.None? && !Agrees(g.shown, ips)
    requires ShowsWrite(ips, readBack)
    ensures var (last, outcome) := Reconcile(g, ips, readBack, lag, attempts);
            && outcome == (if Canonical(WrittenParts(ips)) && lag < attempts then Settled(true) else WaitTimeout(true))
            && (lag < attempts ==> last == Group(Some(readBack), None, 0))
  {
    AgreesIff(ips, readBack);
    WaitForWrite(Group(g.shown, Some(readBack), lag), Ready(ips), attempts);
  }

  /** A list of blank entries is refused, and only such a list, with nothing read or written. */
  lemma BlankIsRefused(g: Group, ips: seq<string>, readBack: string, lag: nat, attempts: nat)
    requires attempts >= 1
    ensures var (last, outcome) := Reconcile(g, ips, readBack, lag, attempts);
            && (outcome == NeedsAddress <==> forall i | 0 <= i < |ips| :: Trim(ips[i]) == "")
            && (outcome == NeedsAddress ==> last == g)
  {
    NormalizeIsCanonical(ips);
    if i :| 0 <= i < |ips| && Trim(ips[i]) != "" {
      assert Names(ips, Trim(ips[i]));
    }
    if Normalize(ips) != [] {
      assert Normalize(ips)[0] in Normalize(ips);
    }
  }

  /** A reconcile that finds the addresses in place writes nothing and succeeds. */
  lemma NothingToWrite(g: Group, ips: seq<string>, readBack: string, lag: nat, attempts: nat)
    requires attempts >= 1 && Normalize(ips) != [] && g.coming.None? && Agrees(g.shown, ips)
    ensures Reconcile(g, ips, readBack, lag, attempts) == (g, Settled(false))
  {
    WaitSettled(g, Ready(ips), attempts);
  }

  /**
   So a list whose written text is not canonical fails every time: whatever the group holds, whatever the
   service shows and however soon, its reconcile writes and times out.
   */
  lemma NeverConverges(g: Group, ips: seq<string>, readBack: string, lag: nat, attempts: nat)
    requires attempts >= 1 && Normalize(ips) != [] && g.coming.None? && !Canonical(WrittenParts(ips))
    ensures Reconcile(g, ips, readBack, lag, attempts).1 == WaitTimeout(true)
  {
    AgreesIff(ips, readBack);
    if g.shown.Some? {
      AgreesIff(ips, g.shown.value);
    }
    WaitForWrite(Group(g.shown, Some(readBack), lag), Ready(ips), attempts);
  }

  /** And any other list converges: once a write has shown, it is left alone. */
  lemma ConvergesIff(g: Group, ips: seq<string>, readBack: string, lag: nat, attempts: nat)
    requires attempts >= 1 && Normalize(ips) != [] && g.coming.None? && !Agrees(g.shown, ips)
    requires ShowsWrite(ips, readBack) && lag < attempts
    ensures var (last, outcome) := Reconcile(g, ips, readBack, lag, attempts);
            var again := Reconcile(last, ips, readBack, lag, attempts);
            && (outcome == Settled(true) && again == (last, Settled(false)) <==> Canonical(WrittenParts(ips)))
            && (outcome == WaitTimeout(true) && again.1 == WaitTimeout(true) <==> !Canonical(WrittenParts(ips)))
  {
    WriteSucceedsIff(g, ips, readBack, lag, attempts);
    var last := Group(Some(readBack), None, 0);
    AgreesIff(ips, readBack);
    if Canonical(WrittenParts(ips)) {
      NothingToWrite(last, ips, readBack, lag, attempts);
    } else {
      NeverConverges(last, ips, readBack, lag, attempts);
    }
  }

  /** Comma-free entries write canonical text. */
  lemma CommaFreeIsCanonical(ips: seq<string>)
    requires CommaFree(ips) && Normalize(ips) != []
    ensures Canonical(WrittenParts(ips))
  {
    JoinedSplitsBack(ips);
    NormalizeIsIdempotent(ips);
    CanonicalIsNormal(Normalize(ips));
  }

  /**
   For a non-empty comma-free list one reconcile whose write shows in time succeeds, and the next one
   writes nothing.
   */
  lemma CoverConverges(g: Group, ips: seq<string>, readBack: string, lag: nat, attempts: nat)
    requires attempts >= 1 && CommaFree(ips) && Normalize(ips) != [] && g.coming.None?
    requires ShowsWrite(ips, readBack) && lag < attempts
    ensures var (last, outcome) := Reconcile(g, ips, readBack, lag, attempts);
            && outcome == Settled(!Agrees(g.shown, ips))
            && Reconcile(last, ips, readBack, lag, attempts) == (last, Settled(false))
  {
    CommaFreeIsCanonical(ips);
    if Agrees(g.shown, ips) {
      NothingToWrite(g, ips, readBack, lag, attempts);
    } else {
      ConvergesIff(g, ips, readBack, lag, attempts);
    }
  }

  lemma OneNormal(entry: string)
    requires Trim(entry) == entry && entry != ""
    ensures Normalize([entry]) == [entry]
  {
    NormalizeIsCanonical([entry]);
    forall x
      ensures x in Normalize([entry]) <==> x in [entry]
    {
      assert [entry][0] == entry;
    }
    AscendingIsUnique(Normalize([entry]), [entry]);
  }

  lemma SplitPair(x: string, y: string)
    requires ',' !in x && ',' !in y
    ensures Split(x + "," + y, ',') == [x, y]
  {
    SplitPrefix(x, y, ',');
    SplitPrefix(y, "", ',');
    assert x + [','] + y == x + "," + y;
  }

  /** An entry that itself holds two addresses in descending order fails at every reconcile. */
  lemma CommaEntryNeverConverges(
    g: Group, x: string, y: string, readBack: string, lag: nat, attempts: nat)
    requires Before(x, y) && x != "" && ',' !in x && ',' !in y && Trim(x) == x && Trim(y) == y
    requires Trim(y + "," + x) == y + "," + x
    requires attempts >= 1 && g.coming.None?
    ensures Reconcile(g, [y + "," + x], readBack, lag, attempts).1 == WaitTimeout(true)
  {
    var entry := y + "," + x;
    OneNormal(entry);
    assert Join([entry], ',') == entry;
    SplitPair(y, x);
    BeforeIsTotal(x, y);
    assert !Canonical([y, x]) by {
      assert [y, x][0] == y && [y, x][1] == x;
    }
    NeverConverges(g, [entry], readBack, lag, attempts);
  }

  /** The same entry the other way round converges: commas alone are not the trouble. */
  lemma CommaEntryInOrderConverges(x: string, y: string, attempts: nat)
    requires Before(x, y) && x != "" && ',' !in x && ',' !in y && Trim(x) == x && Trim(y) == y
    requires Trim(x + "," + y) == x + "," + y
    requires attempts >= 1
    ensures var entry := x + "," + y;
            Reconcile(Group(None, None, 0), [entry], entry, 0, attempts) == (Group(Some(entry), None, 0), Settled(true))
  {
    var entry := x + "," + y;
    OneNormal(entry);
    assert Join([entry], ',') == entry;
    SplitPair(x, y);
    assert Canonical([x, y]);
    WriteSucceedsIff(Group(None, None, 0), [entry], entry, 0, attempts);
  }
}
