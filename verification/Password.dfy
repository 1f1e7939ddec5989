/** Generating a password: 24 characters, six of each class, shuffled in place. */
module Password {
  import opened Text

  const CLASSES: seq<string> :=
    ["ABCDEFGHJKLMNPQRSTUVWXYZ", "abcdefghijkmnopqrstuvwxyz", "23456789", "!@#$%^&*_-+="]

  /** Which of the four classes a character belongs to, if any. */
  predicate InClass(c: char, k: nat) {
    match k
    case 0 => 'A' <= c <= 'Z'
    case 1 => 'a' <= c <= 'z'
    case 2 => '0' <= c <= '9'
    case 3 => c in {'!', '@', '#', '$', '%', '^', '&', '*', '_', '-', '+', '='}
    case _ => false
  }

  lemma ClassesAreProper(k: nat, i: nat)
    requires k < 4 && i < |CLASSES[k]|
    ensures InClass(CLASSES[k][i], k)
  {
  }

  function CountIn(s: seq<char>, k: nat): nat {
    if s == [] then 0 else CountIn(s[..|s| - 1], k) + if InClass(s[|s| - 1], k) then 1 else 0
  }

  function Weight(c: char, k: nat): nat {
    if InClass(c, k) then 1 else 0
  }

  lemma {:induction false} CountAfterUpdate(s: seq<char>, i: nat, c: char, k: nat)
    requires i < |s|
    ensures CountIn(s[i := c], k) == CountIn(s, k) - Weight(s[i], k) + Weight(c, k)
    ensures InClass(s[i], k) ==> CountIn(s, k) >= 1
    decreases |s|
  {
    var t := s[i := c];
    if i == |s| - 1 {
      assert t[..|t| - 1] == s[..|s| - 1];
    } else {
      CountAfterUpdate(s[..|s| - 1], i, c, k);
      assert t[..|t| - 1] == s[..|s| - 1][i := c];
    }
  }

  /** Swapping two characters leaves every class its number. */
  lemma SwapKeepsCounts(s: seq<char>, i: nat, j: nat)
    requires i < |s| && j < |s|
    ensures forall k: nat :: CountIn(s[i := s[j]][j := s[i]], k) == CountIn(s, k)
  {
    forall k: nat
      ensures CountIn(s[i := s[j]][j := s[i]], k) == CountIn(s, k)
    {
      CountAfterUpdate(s, i, s[j], k);
      CountAfterUpdate(s[i := s[j]], j, s[i], k);
    }
  }

  predicate Classified(c: char) {
    InClass(c, 0) || InClass(c, 1) || InClass(c, 2) || InClass(c, 3)
  }

  predicate Printable(s: seq<char>) {
    forall i | 0 <= i < |s| :: Classified(s[i])
  }

  /** One random character of a class. */
  method Pick(k: nat) returns (c: char)
    requires k < 4
    ensures InClass(c, k) && Classified(c)
  {
    var byte: nat := *;
    var source := CLASSES[k];
    ClassesAreProper(k, byte % |source|);
    c := source[byte % |source|];
  }

  /** Every class filled in turn: as many of class `k` as there are positions congruent to `k`. */
  function Share(length: nat, k: nat): nat
    requires k < 4
  {
    (length + 3 - k) / 4
  }

  /** No character belongs to two classes. */
  lemma OneClassEach(c: char, k: nat, j: nat)
    requires k < 4 && j < 4 && InClass(c, k) && InClass(c, j)
    ensures k == j
  {
  }

  lemma OneMore(characters: seq<char>, c: char, k: nat)
    requires k == |characters| % 4 && InClass(c, k)
    requires forall j: nat | j < 4 :: CountIn(characters, j) == Share(|characters|, j)
    ensures forall j: nat | j < 4 :: CountIn(characters + [c], j) == Share(|characters| + 1, j)
  {
    var longer := characters + [c];
    assert longer[..|longer| - 1] == characters;
    forall j: nat | j < 4
      ensures CountIn(longer, j) == Share(|longer|, j)
    {
      if InClass(c, j) {
        OneClassEach(c, j, k);
      }
    }
  }

  method Collect() returns (characters: seq<char>)
    ensures |characters| == 24 && Printable(characters)
    ensures forall k: nat | k < 4 :: CountIn(characters, k) == 6
  {
    characters := [];
    while |characters| < 24
      invariant |characters| <= 24 && Printable(characters)
      invariant forall k: nat | k < 4 :: CountIn(characters, k) == Share(|characters|, k)
    {
      var k := |characters| % 4;
      var c := Pick(k);
      OneMore(characters, c, k);
      characters := characters + [c];
    }
  }

  /**
   24 characters, exactly six of each class, that trimming never shortens even with the line end written
   after them.
   */
  method GeneratePassword() returns (password: string)
    ensures |password| == 24
    ensures forall k: nat | k < 4 :: CountIn(password, k) == 6
    ensures Trim(password) == password && Trim(password + "\n") == password
  {
    var collected := Collect();
    var characters := new char[24](i requires 0 <= i < 24 => collected[i]);
    assert characters[..] == collected;
    var index := 23;
    while index > 0
      invariant 0 <= index < 24
      invariant Printable(characters[..])
      invariant forall k: nat | k < 4 :: CountIn(characters[..], k) == 6
    {
      var byte: nat := *;
      var swap := byte % (index + 1);
      ghost var before := characters[..];
      SwapKeepsCounts(before, index, swap);
      characters[index], characters[swap] := characters[swap], characters[index];
      ghost var after := characters[..];
      assert after == before[index := before[swap]][swap := before[index]];
      assert forall k: nat | k < 4 :: CountIn(after, k) == CountIn(before, k);
      assert Printable(after);
      index := index - 1;
    }
    password := characters[..];
    PrintableSurvivesTrimming(password);
  }

  lemma PrintableSurvivesTrimming(password: string)
    requires password != "" && Printable(password)
    ensures Trim(password) == password && Trim(password + "\n") == password
  {
    NotSpace(password[0]);
    NotSpace(password[|password| - 1]);
    TrimKeeps(password);
    assert password + "\n" == password + ['\n'];
  }

  lemma NotSpace(c: char)
    requires Classified(c)
    ensures !IsSpace(c)
  {
  }
}
