/** The failure-class check in its two database dialects: a conjunction of SQLite GLOB tests, and a PostgreSQL
    regular expression for dotted identifiers. */
module FailureClass {
  // ---------------------------------------------------------------- characters

  predicate IsLetter(c: char) { 'A' <= c <= 'Z' || 'a' <= c <= 'z' || c == '_' }

  predicate IsWord(c: char) { IsLetter(c) || '0' <= c <= '9' }

  predicate IsDotted(c: char) { IsWord(c) || c == '.' }

  /** A bracket expression. */
  datatype Class = Letter | NotLetter | Word | NotDotted

  predicate InClass(k: Class, c: char) {
    match k
    case Letter => IsLetter(c)
    case NotLetter => !IsLetter(c)
    case Word => IsWord(c)
    case NotDotted => !IsDotted(c)
  }

  // ---------------------------------------------------------------- SQLite GLOB

  /** One item of a GLOB pattern: `*`, a literal character, or a bracket expression. */
  datatype Glob = Any | Char(c: char) | OneOf(k: Class)

  predicate GlobMatches(pattern: seq<Glob>, s: string)
    decreases |pattern| + |s|
  {
    if pattern == [] then s == []
    else
      match pattern[0]
      case Any => GlobMatches(pattern[1..], s) || (s != [] && GlobMatches(pattern, s[1..]))
      case Char(c) => s != [] && s[0] == c && GlobMatches(pattern[1..], s[1..])
      case OneOf(k) => s != [] && InClass(k, s[0]) && GlobMatches(pattern[1..], s[1..])
  }

  /** The SQLite form, without the NULL alternative. */
  predicate SqliteAccepts(s: string) {
    && 1 <= |s| <= 128
    && GlobMatches([OneOf(Letter), Any], s)
    && !GlobMatches([Any, OneOf(NotDotted), Any], s)
    && !GlobMatches([Any, Char('.')], s)
    && !GlobMatches([Any, Char('.'), Char('.'), Any], s)
    && !GlobMatches([Any, Char('.'), OneOf(NotLetter), Any], s)
  }

  // ---------------------------------------------------------------- regular expressions

  datatype Regex = Empty | One(k: Class) | Dot | Cat(a: Regex, b: Regex) | Star(r: Regex)

  /** The strings of an anchored regular expression. */
  ghost predicate Matches(r: Regex, s: string)
    decreases r, |s|
  {
    match r
    case Empty => s == []
    case One(k) => |s| == 1 && InClass(k, s[0])
    case Dot => s == "."
    case Cat(a, b) => exists i :: 0 <= i <= |s| && Matches(a, s[..i]) && Matches(b, s[i..])
    case Star(a) => s == [] || exists i :: 0 < i <= |s| && Matches(a, s[..i]) && Matches(r, s[i..])
  }

  const IDENTIFIER := Cat(One(Letter), Star(One(Word)))

  const DOTTED := Cat(IDENTIFIER, Star(Cat(Dot, IDENTIFIER)))

  /** The PostgreSQL form, without the NULL alternative. */
  ghost predicate PostgresAccepts(s: string) { Matches(DOTTED, s) }

  // ---------------------------------------------------------------- what both say, character by character

  /** Starts with a letter, has dotted characters only, and every dot is followed by a letter. */
  ghost predicate WellFormed(s: string) {
    && s != [] && IsLetter(s[0])
    && (forall i :: 0 <= i < |s| ==> IsDotted(s[i]))
    && (forall i :: 0 <= i < |s| && s[i] == '.' ==> i + 1 < |s| && IsLetter(s[i + 1]))
  }

  lemma {:induction false} AnySkips(pattern: seq<Glob>, s: string)
    requires pattern != [] && pattern[0] == Any
    ensures GlobMatches(pattern, s) <==> exists i :: 0 <= i <= |s| && GlobMatches(pattern[1..], s[i..])
    decreases |s|
  {
    if GlobMatches(pattern, s) {
      if GlobMatches(pattern[1..], s) {
        assert s[0..] == s;
      } else {
        AnySkips(pattern, s[1..]);
        var i :| 0 <= i <= |s| - 1 && GlobMatches(pattern[1..], s[1..][i..]);
        assert s[1..][i..] == s[i + 1..];
      }
    }
    if i :| 0 <= i <= |s| && GlobMatches(pattern[1..], s[i..]) {
      if i == 0 {
        assert s[0..] == s;
      } else {
        assert s[1..][i - 1..] == s[i..];
        AnySkips(pattern, s[1..]);
      }
    }
  }

  /** A trailing `*` matches everything. */
  lemma {:induction false} AnyMatchesAll(s: string)
    ensures GlobMatches([Any], s)
    decreases |s|
  {
    assert [Any][1..] == [];
    if s != [] {
      AnyMatchesAll(s[1..]);
    }
  }

  lemma {:induction false} ClassThenAny(k: Class, s: string)
    ensures GlobMatches([OneOf(k), Any], s) <==> s != [] && InClass(k, s[0])
  {
    assert [OneOf(k), Any][1..] == [Any];
    if s != [] {
      AnyMatchesAll(s[1..]);
    }
  }

  lemma {:induction false} SomewhereInClass(k: Class, s: string)
    ensures GlobMatches([Any, OneOf(k), Any], s) <==> exists i :: 0 <= i < |s| && InClass(k, s[i])
  {
    var pattern := [Any, OneOf(k), Any];
    assert pattern[1..] == [OneOf(k), Any];
    AnySkips(pattern, s);
    forall i | 0 <= i <= |s|
      ensures GlobMatches(pattern[1..], s[i..]) <==> i < |s| && InClass(k, s[i])
    {
      ClassThenAny(k, s[i..]);
    }
  }

  lemma {:induction false} EndsInDot(s: string)
    ensures GlobMatches([Any, Char('.')], s) <==> s != [] && s[|s| - 1] == '.'
  {
    var pattern := [Any, Char('.')];
    assert pattern[1..] == [Char('.')] && pattern[1..][1..] == [];
    AnySkips(pattern, s);
    forall i | 0 <= i <= |s|
      ensures GlobMatches(pattern[1..], s[i..]) <==> i == |s| - 1 && s[i] == '.'
    {
      if i < |s| {
        assert GlobMatches([], s[i..][1..]) <==> i + 1 == |s|;
      }
    }
  }

  lemma {:induction false} DotThenClass(k: Class, s: string)
    ensures GlobMatches([Any, Char('.'), OneOf(k), Any], s)
       <==> exists i :: 0 <= i < |s| - 1 && s[i] == '.' && InClass(k, s[i + 1])
  {
    var pattern := [Any, Char('.'), OneOf(k), Any];
    assert pattern[1..] == [Char('.'), OneOf(k), Any] && pattern[1..][1..] == [OneOf(k), Any];
    AnySkips(pattern, s);
    forall i | 0 <= i <= |s|
      ensures GlobMatches(pattern[1..], s[i..]) <==> i < |s| - 1 && s[i] == '.' && InClass(k, s[i + 1])
    {
      if i < |s| {
        ClassThenAny(k, s[i..][1..]);
        assert s[i..][1..] == s[i + 1..];
      }
    }
  }

  lemma {:induction false} DotThenDot(s: string)
    ensures GlobMatches([Any, Char('.'), Char('.'), Any], s)
       <==> exists i :: 0 <= i < |s| - 1 && s[i] == '.' && s[i + 1] == '.'
  {
    var pattern := [Any, Char('.'), Char('.'), Any];
    assert pattern[1..] == [Char('.'), Char('.'), Any];
    assert pattern[1..][1..] == [Char('.'), Any] && pattern[1..][1..][1..] == [Any];
    AnySkips(pattern, s);
    forall i | 0 <= i <= |s|
      ensures GlobMatches(pattern[1..], s[i..]) <==> i < |s| - 1 && s[i] == '.' && s[i + 1] == '.'
    {
      if i < |s| - 1 {
        assert s[i..][1..] == s[i + 1..];
        AnyMatchesAll(s[i..][1..][1..]);
      }
    }
  }

  /** The double-dot test adds nothing to the others. */
  lemma {:induction false} DoubleDotIsRedundant(s: string)
    requires GlobMatches([Any, Char('.'), Char('.'), Any], s)
    ensures GlobMatches([Any, Char('.'), OneOf(NotLetter), Any], s)
  {
    DotThenDot(s);
    DotThenClass(NotLetter, s);
  }

  lemma {:induction false} SqliteIsWellFormed(s: string)
    ensures SqliteAccepts(s) <==> |s| <= 128 && WellFormed(s)
  {
    ClassThenAny(Letter, s);
    SomewhereInClass(NotDotted, s);
    EndsInDot(s);
    DotThenClass(NotLetter, s);
    if GlobMatches([Any, Char('.'), Char('.'), Any], s) {
      DoubleDotIsRedundant(s);
    }
  }

  // ---------------------------------------------------------------- the regular expression

  ghost predicate AllWord(s: string) { forall i :: 0 <= i < |s| ==> IsWord(s[i]) }

  lemma {:induction false} WordsAreStar(s: string)
    ensures Matches(Star(One(Word)), s) <==> AllWord(s)
    decreases |s|
  {
    if s != [] {
      WordsAreStar(s[1..]);
      assert Matches(One(Word), s[..1]) <==> IsWord(s[0]);
      if AllWord(s) {
        assert Matches(One(Word), s[..1]) && Matches(Star(One(Word)), s[1..]);
      }
      if i :| 0 < i <= |s| && Matches(One(Word), s[..i]) && Matches(Star(One(Word)), s[i..]) {
        assert i == 1;
        assert forall j :: 0 < j < |s| ==> s[j] == s[1..][j - 1];
      }
    }
  }

  lemma {:induction false} IdentifierIs(s: string)
    ensures Matches(IDENTIFIER, s) <==> s != [] && IsLetter(s[0]) && AllWord(s)
  {
    if Matches(IDENTIFIER, s) {
      var i :| 0 <= i <= |s| && Matches(One(Letter), s[..i]) && Matches(Star(One(Word)), s[i..]);
      WordsAreStar(s[1..]);
      assert i == 1;
      assert forall j :: 0 < j < |s| ==> s[j] == s[1..][j - 1];
    }
    if s != [] && IsLetter(s[0]) && AllWord(s) {
      WordsAreStar(s[1..]);
      assert Matches(One(Letter), s[..1]);
    }
  }

  /** The tail of a dotted identifier: empty, or a dot, an identifier and such a tail. */
  ghost predicate TailFormed(s: string) {
    s != [] ==> s[0] == '.' && WellFormed(s[1..])
  }

  /** A well-formed string is an identifier up to its first dot, and a well-formed tail from there. */
  lemma {:induction false} SplitAtDot(s: string) returns (i: nat)
    requires WellFormed(s)
    ensures 0 < i <= |s| && Matches(IDENTIFIER, s[..i]) && TailFormed(s[i..])
  {
    i := 1;
    while i < |s| && s[i] != '.'
      invariant 1 <= i <= |s| && forall j :: 0 <= j < i ==> s[j] != '.'
    {
      i := i + 1;
    }
    IdentifierIs(s[..i]);
    if i < |s| {
      var rest := s[i..][1..];
      assert rest == s[i + 1..];
      assert forall j :: 0 <= j < |rest| ==> rest[j] == s[i + 1 + j];
      assert IsLetter(s[i + 1]);
    }
  }

  lemma {:induction false} JoinAtDot(s: string, i: nat)
    requires 0 < i <= |s| && Matches(IDENTIFIER, s[..i]) && TailFormed(s[i..])
    ensures WellFormed(s)
  {
    IdentifierIs(s[..i]);
    assert forall j :: 0 <= j < i ==> s[..i][j] == s[j];
    if i < |s| {
      var rest := s[i..][1..];
      assert rest == s[i + 1..];
      assert forall j :: i + 1 <= j < |s| ==> s[j] == rest[j - i - 1];
    }
  }

  const DOT_IDENTIFIER := Cat(Dot, IDENTIFIER)

  /** The first repetition of a star. */
  lemma {:induction false} FirstOfStar(r: Regex, s: string) returns (i: nat)
    requires s != [] && Matches(Star(r), s)
    ensures 0 < i <= |s| && Matches(r, s[..i]) && Matches(Star(r), s[i..])
  {
    i :| 0 < i <= |s| && Matches(r, s[..i]) && Matches(Star(r), s[i..]);
  }

  lemma {:induction false} StarHasTail(s: string)
    requires Matches(Star(DOT_IDENTIFIER), s)
    ensures TailFormed(s)
    decreases |s|
  {
    if s != [] {
      var i := FirstOfStar(DOT_IDENTIFIER, s);
      StarHasTail(s[i..]);
      assert s[..i][1..] == s[1..][..i - 1] && s[1..][i - 1..] == s[i..];
      IdentifierIs(s[..i][1..]);
      JoinAtDot(s[1..], i - 1);
    }
  }

  lemma {:induction false} TailHasStar(s: string)
    requires TailFormed(s)
    ensures Matches(Star(DOT_IDENTIFIER), s)
    decreases |s|
  {
    if s != [] {
      var i := SplitAtDot(s[1..]);
      assert s[..i + 1][1..] == s[1..][..i] && s[1..][i..] == s[i + 1..];
      TailHasStar(s[i + 1..]);
    }
  }

  lemma {:induction false} PostgresIsWellFormed(s: string)
    ensures PostgresAccepts(s) <==> WellFormed(s)
  {
    if WellFormed(s) {
      var i := SplitAtDot(s);
      TailHasStar(s[i..]);
      assert Matches(IDENTIFIER, s[..i]) && Matches(Star(DOT_IDENTIFIER), s[i..]);
    }
    if PostgresAccepts(s) {
      var i :| 0 <= i <= |s| && Matches(IDENTIFIER, s[..i]) && Matches(Star(DOT_IDENTIFIER), s[i..]);
      IdentifierIs(s[..i]);
      StarHasTail(s[i..]);
      JoinAtDot(s, i);
    }
  }

  /** Within the length bound the two dialects accept the same strings. */
  lemma {:induction false} DialectsAgree(s: string)
    ensures SqliteAccepts(s) <==> |s| <= 128 && PostgresAccepts(s)
  {
    SqliteIsWellFormed(s);
    PostgresIsWellFormed(s);
  }

  /** Which characters may begin a name and which may go on, told by the shortest strings. */
  lemma {:induction false} FirstAndLaterCharacters(c: char)
    ensures SqliteAccepts([c]) <==> 'A' <= c <= 'Z' || 'a' <= c <= 'z' || c == '_'
    ensures SqliteAccepts(['_', c]) <==> 'A' <= c <= 'Z' || 'a' <= c <= 'z' || c == '_' || '0' <= c <= '9'
    ensures SqliteAccepts(['_', '.', c]) <==> 'A' <= c <= 'Z' || 'a' <= c <= 'z' || c == '_'
  {
    SqliteIsWellFormed([c]);
    SqliteIsWellFormed(['_', c]);
    SqliteIsWellFormed(['_', '.', c]);
    assert ['_', c][1] == c && ['_', '.', c][1] == '.' && ['_', '.', c][2] == c;
  }
}
