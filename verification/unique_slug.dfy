/** Slugs of seeded artists: how a name becomes a slug, and the search for one that is free. */
module UniqueSlug {

  // ---------------------------------------------------------------------------------------
  //  Slugs of names, for ASCII names
  // ---------------------------------------------------------------------------------------

  predicate IsWord(c: char) {
    'a' <= c <= 'z' || '0' <= c <= '9'
  }

  /** The characters a slug may have, besides dashes. */
  lemma WordsAreLettersAndDigits(c: char)
    ensures IsWord('a') && IsWord('z') && IsWord('0') && IsWord('9')
    ensures c < '0' || '9' < c < 'a' || 'z' < c ==> !IsWord(c)
  {
  }

  predicate IsSpace(c: char) {
    c == ' ' || c == '\t' || c == '\n' || c == '\r'
  }

  function LowerChar(c: char): char {
    if 'A' <= c <= 'Z' then ((c as int) - ('A' as int) + ('a' as int)) as char else c
  }

  function Lower(s: string): (r: string)
    ensures |r| == |s| && forall i :: 0 <= i < |s| ==> r[i] == LowerChar(s[i])
  {
    if s == [] then [] else [LowerChar(s[0])] + Lower(s[1..])
  }

  function TrimLeft(s: string): string {
    if s != [] && IsSpace(s[0]) then TrimLeft(s[1..]) else s
  }

  function TrimRight(s: string): string {
    if s != [] && IsSpace(s[|s| - 1]) then TrimRight(s[..|s| - 1]) else s
  }

  /** Each run of other characters becomes one dash. */
  function Collapse(s: string): string {
    if s == [] then []
    else
      var rest := Collapse(s[1..]);
      if IsWord(s[0]) then [s[0]] + rest
      else if rest != [] && rest[0] == '-' then rest
      else ['-'] + rest
  }

  /** Drop one dash at either end. */
  function StripDashes(s: string): string {
    var front := if s != [] && s[0] == '-' then s[1..] else s;
    if front != [] && front[|front| - 1] == '-' then front[..|front| - 1] else front
  }

  const MAX_LENGTH := 200

  function Slugify(value: string): string {
    var s := StripDashes(Collapse(TrimRight(TrimLeft(Lower(value)))));
    var cut := if |s| > MAX_LENGTH then s[..MAX_LENGTH] else s;
    if cut == [] then "artist" else cut
  }

  /** Words separated by single dashes. */
  ghost predicate Dashed(s: string) {
    && (forall i :: 0 <= i < |s| ==> IsWord(s[i]) || s[i] == '-')
    && (forall i :: 0 <= i < |s| - 1 ==> s[i] != '-' || s[i + 1] != '-')
  }

  lemma {:induction false} CollapseIsDashed(s: string)
    ensures Dashed(Collapse(s))
  {
    if s != [] {
      CollapseIsDashed(s[1..]);
    }
  }

  lemma StripKeepsDashed(s: string)
    requires Dashed(s)
    ensures Dashed(StripDashes(s)) && (StripDashes(s) != [] ==> IsWord(StripDashes(s)[0]))
  {
    var front := if s != [] && s[0] == '-' then s[1..] else s;
    assert Dashed(front) by {
      if front != s {
        assert forall i :: 0 <= i < |front| ==> front[i] == s[i + 1];
      }
    }
  }

  /** A slug is never empty, at most 200 long, starts with a letter or digit, and never doubles a dash. */
  lemma SlugIsWellFormed(value: string)
    ensures var slug := Slugify(value);
      1 <= |slug| <= MAX_LENGTH && Dashed(slug) && IsWord(slug[0])
  {
    var collapsed := Collapse(TrimRight(TrimLeft(Lower(value))));
    CollapseIsDashed(TrimRight(TrimLeft(Lower(value))));
    StripKeepsDashed(collapsed);
    assert forall i :: 0 <= i < 6 ==> IsWord("artist"[i]);
  }

  lemma {:induction false} CollapseKeeps(s: string)
    requires Dashed(s)
    ensures Collapse(s) == s
  {
    if s != [] {
      CollapseKeeps(s[1..]);
    }
  }

  lemma {:induction false} LowerKeeps(s: string)
    requires Dashed(s)
    ensures Lower(s) == s
  {
    forall i | 0 <= i < |s| ensures LowerChar(s[i]) == s[i] {
      assert IsWord(s[i]) || s[i] == '-';
    }
  }

  /**
   Making a slug of a slug changes it exactly when it ends in a dash, which happens when the cut to
   200 characters falls on one: the cut comes after the dashes have been stripped.
   */
  lemma SlugOfSlugIff(value: string)
    ensures var slug := Slugify(value);
      Slugify(slug) == slug <==> slug[|slug| - 1] != '-'
  {
    var slug := Slugify(value);
    SlugIsWellFormed(value);
    LowerKeeps(slug);
    assert !IsSpace(slug[0]) && !IsSpace(slug[|slug| - 1]);
    assert TrimRight(TrimLeft(Lower(slug))) == slug;
    CollapseKeeps(slug);
    if slug[|slug| - 1] == '-' {
      assert StripDashes(slug) == slug[..|slug| - 1];
      assert |slug| > 1;
    }
  }

  // ---------------------------------------------------------------------------------------
  //  What a slug spells
  // ---------------------------------------------------------------------------------------

  /** A letter or digit of a word, and whether the word begins with it. */
  datatype Letter = Letter(c: char, first: bool)

  predicate IsCapital(c: char) {
    'A' <= c <= 'Z'
  }

  /** The letters and digits of a text, capitals made small; everything else only ends words. */
  function Spelled(s: string, first: bool): seq<Letter> {
    if s == [] then []
    else if IsWord(s[0]) then [Letter(s[0], first)] + Spelled(s[1..], false)
    else if IsCapital(s[0]) then [Letter(((s[0] as int) + 32) as char, first)] + Spelled(s[1..], false)
    else Spelled(s[1..], true)
  }

  /** The words joined by single dashes. */
  function Joined(letters: seq<Letter>, start: bool): string {
    if letters == [] then []
    else (if letters[0].first && !start then "-" else "") + [letters[0].c] + Joined(letters[1..], false)
  }

  lemma {:induction false} LowerSpellsAlike(s: string, first: bool)
    ensures Spelled(Lower(s), first) == Spelled(s, first)
  {
    if s != [] {
      assert Lower(s)[1..] == Lower(s[1..]);
      LowerSpellsAlike(s[1..], if IsWord(s[0]) || IsCapital(s[0]) then false else true);
    }
  }

  lemma {:induction false} TrimLeftSpellsAlike(s: string)
    ensures Spelled(TrimLeft(s), true) == Spelled(s, true)
  {
    if s != [] && IsSpace(s[0]) {
      TrimLeftSpellsAlike(s[1..]);
    }
  }

  /** A last character that is neither letter nor digit adds nothing. */
  lemma {:induction false} EndSpellsNothing(s: string, first: bool)
    requires s != [] && !IsWord(s[|s| - 1]) && !IsCapital(s[|s| - 1])
    ensures Spelled(s[..|s| - 1], first) == Spelled(s, first)
  {
    if |s| > 1 {
      var next := if IsWord(s[0]) || IsCapital(s[0]) then false else true;
      EndSpellsNothing(s[1..], next);
      assert s[..|s| - 1][1..] == s[1..][..|s| - 2];
    } else {
      assert s[1..] == [];
    }
  }

  lemma {:induction false} TrimRightSpellsAlike(s: string, first: bool)
    ensures Spelled(TrimRight(s), first) == Spelled(s, first)
  {
    if s != [] && IsSpace(s[|s| - 1]) {
      EndSpellsNothing(s, first);
      TrimRightSpellsAlike(s[..|s| - 1], first);
    }
  }

  ghost predicate NoCapitals(s: string) {
    forall i :: 0 <= i < |s| ==> !IsCapital(s[i])
  }

  lemma {:induction false} CollapseSpellsAlike(s: string, first: bool)
    requires NoCapitals(s)
    ensures Spelled(Collapse(s), first) == Spelled(s, first)
  {
    if s != [] {
      var next := if IsWord(s[0]) then false else true;
      CollapseSpellsAlike(s[1..], next);
      CollapseSpellsAlike(s[1..], true);
      var rest := Collapse(s[1..]);
      if IsWord(s[0]) {
        assert ([s[0]] + rest)[1..] == rest;
      } else if !(rest != [] && rest[0] == '-') {
        assert (['-'] + rest)[1..] == rest;
      }
    }
  }

  lemma StripSpellsAlike(s: string)
    ensures Spelled(StripDashes(s), true) == Spelled(s, true)
  {
    var front := if s != [] && s[0] == '-' then s[1..] else s;
    if front != [] && front[|front| - 1] == '-' {
      EndSpellsNothing(front, true);
    }
  }

  lemma {:induction false} TrimKeepsLower(s: string)
    requires NoCapitals(s)
    ensures NoCapitals(TrimLeft(s)) && NoCapitals(TrimRight(s))
  {
    if s != [] && IsSpace(s[0]) {
      TrimKeepsLower(s[1..]);
    }
    if s != [] && IsSpace(s[|s| - 1]) {
      TrimKeepsLower(s[..|s| - 1]);
    }
  }

  lemma WordGoesOn(s: string, first: bool, start: bool)
    requires s != [] && IsWord(s[0])
    ensures Joined(Spelled(s, first), start)
      == (if first && !start then "-" else "") + [s[0]] + Joined(Spelled(s[1..], false), false)
  {
    var rest := Spelled(s[1..], false);
    assert ([Letter(s[0], first)] + rest)[1..] == rest;
  }

  lemma DashSpellsNothing(s: string)
    requires s != [] && s[0] == '-'
    ensures Spelled(s, false) == Spelled(s[1..], true) && s == "-" + s[1..]
  {
  }

  lemma Regroup(dash: string, s: string)
    requires s != []
    ensures dash + [s[0]] + s[1..] == dash + s
  {
  }

  /** Words separated by single dashes, with none at either end. */
  ghost predicate Clean(s: string) {
    Dashed(s) && (s != [] ==> IsWord(s[0]) && s[|s| - 1] != '-')
  }

  /** They are what their letters spell, joined. */
  lemma {:induction false} JoinedAgain(s: string, first: bool, start: bool)
    requires Clean(s)
    ensures Joined(Spelled(s, first), start) == (if s != [] && first && !start then "-" else "") + s
    decreases |s|, 1
  {
    if s != [] {
      WordGoesOn(s, first, start);
      RestJoined(s);
      Regroup(if first && !start then "-" else "", s);
    }
  }

  lemma {:induction false} RestJoined(s: string)
    requires Clean(s) && s != []
    ensures Joined(Spelled(s[1..], false), false) == s[1..]
    decreases |s|, 0
  {
    var rest := s[1..];
    if rest != [] {
      if rest[0] == '-' {
        DashSpellsNothing(rest);
        assert Clean(rest[1..]) && rest[1..] != [];
        JoinedAgain(rest[1..], true, false);
      } else {
        assert Clean(rest);
        JoinedAgain(rest, false, false);
      }
    }
  }

  lemma StripEndsClean(s: string)
    requires Dashed(s)
    ensures StripDashes(s) != [] ==> StripDashes(s)[|StripDashes(s)| - 1] != '-'
  {
  }

  /**
   A slug is the words of the name, in small letters, joined by single dashes and cut to two hundred
   characters; a name without a letter or digit becomes "artist".
   */
  lemma SlugSpellsName(value: string)
    ensures var words := Joined(Spelled(value, true), true);
      Slugify(value) == if words == [] then "artist" else if |words| > 200 then words[..200] else words
  {
    TrimmedSpellsAlike(value);
    CleanedSpellsAlike(TrimRight(TrimLeft(Lower(value))));
  }

  lemma TrimmedSpellsAlike(value: string)
    ensures var trimmed := TrimRight(TrimLeft(Lower(value)));
      NoCapitals(trimmed) && Spelled(trimmed, true) == Spelled(value, true)
  {
    assert NoCapitals(Lower(value));
    TrimKeepsLower(Lower(value));
    TrimKeepsLower(TrimLeft(Lower(value)));
    LowerSpellsAlike(value, true);
    TrimLeftSpellsAlike(Lower(value));
    TrimRightSpellsAlike(TrimLeft(Lower(value)), true);
  }

  lemma CleanedSpellsAlike(s: string)
    requires NoCapitals(s)
    ensures StripDashes(Collapse(s)) == Joined(Spelled(s, true), true)
  {
    CollapseSpellsAlike(s, true);
    StripSpellsAlike(Collapse(s));
    CollapseIsDashed(s);
    StripKeepsDashed(Collapse(s));
    StripEndsClean(Collapse(s));
    assert Clean(StripDashes(Collapse(s)));
    JoinedAgain(StripDashes(Collapse(s)), true, true);
  }

  // ---------------------------------------------------------------------------------------
  //  Decimal numbers
  // ---------------------------------------------------------------------------------------

  function Digit(d: nat): char
    requires d < 10
  {
    (('0' as int) + d) as char
  }

  function Decimal(n: nat): (s: string)
    ensures s != []
  {
    if n < 10 then [Digit(n)] else Decimal(n / 10) + [Digit(n % 10)]
  }

  function Value(s: string): int {
    if s == [] then 0 else 10 * Value(s[..|s| - 1]) + (s[|s| - 1] as int - '0' as int)
  }

  lemma {:induction false} DecimalReadsBack(n: nat)
    ensures Value(Decimal(n)) == n
  {
    if n >= 10 {
      DecimalReadsBack(n / 10);
      assert Decimal(n)[..|Decimal(n)| - 1] == Decimal(n / 10);
    } else {
      assert Decimal(n)[..0] == [];
    }
  }

  /** The n-th slug tried for a base. */
  function Candidate(base: string, n: nat): string {
    if n == 0 then base else base + "-" + Decimal(n)
  }

  /** No two tries are the same slug. */
  lemma CandidatesDiffer(base: string, m: nat, n: nat)
    requires m != n
    ensures Candidate(base, m) != Candidate(base, n)
  {
    DecimalReadsBack(m);
    DecimalReadsBack(n);
    if m > 0 && n > 0 {
      assert Candidate(base, m)[|base| + 1..] == Decimal(m);
      assert Candidate(base, n)[|base| + 1..] == Decimal(n);
    } else {
      assert |Candidate(base, m)| != |Candidate(base, n)|;
    }
  }

  // ---------------------------------------------------------------------------------------
  //  The search
  // ---------------------------------------------------------------------------------------

  function Tried(base: string, n: nat): set<string> {
    if n == 0 then {} else Tried(base, n - 1) + {Candidate(base, n - 1)}
  }

  lemma {:induction false} TriedMember(base: string, n: nat, x: string)
    ensures x in Tried(base, n) <==> exists k: nat :: k < n && x == Candidate(base, k)
  {
    if n > 0 {
      TriedMember(base, n - 1, x);
      assert x == Candidate(base, n - 1) ==> exists k: nat :: k < n && x == Candidate(base, k);
    }
  }

  lemma {:induction false} TriedCount(base: string, n: nat)
    ensures |Tried(base, n)| == n
  {
    if n > 0 {
      TriedCount(base, n - 1);
      TriedMember(base, n - 1, Candidate(base, n - 1));
      forall k: nat | k < n - 1 ensures Candidate(base, k) != Candidate(base, n - 1) {
        CandidatesDiffer(base, k, n - 1);
      }
    }
  }

  lemma SubsetIsSmaller(a: set<string>, b: set<string>)
    requires a <= b
    ensures |a| <= |b|
  {
    assert b == a + (b - a);
  }

  /** Try the base, then the base with 1, 2, 3 and so on, until one is not taken. */
  method Search(base: string, taken: set<string>) returns (slug: string, n: nat)
    ensures slug == Candidate(base, n) && slug !in taken
    ensures forall k: nat :: k < n ==> Candidate(base, k) in taken
    ensures n <= |taken|
  {
    n, slug := 0, base;
    while slug in taken
      invariant slug == Candidate(base, n) && Tried(base, n) <= taken && n <= |taken|
      decreases |taken| - n
    {
      TriedCount(base, n + 1);
      SubsetIsSmaller(Tried(base, n + 1), taken);
      n := n + 1;
      slug := base + "-" + Decimal(n);
    }
    forall k: nat | k < n ensures Candidate(base, k) in taken {
      TriedMember(base, n, Candidate(base, k));
    }
  }

  /** The slug is the base or one of its first numbered variants. */
  ghost predicate TriedWithin(slug: string, base: string, bound: nat) {
    exists n: nat :: n <= bound && slug == Candidate(base, n)
  }

  /** Seed artists one after the other: every slug is new, among the existing ones and among themselves. */
  method SeedArtists(names: seq<string>, existing: set<string>) returns (slugs: seq<string>)
    ensures |slugs| == |names|
    ensures forall i :: 0 <= i < |slugs| ==> slugs[i] !in existing
    ensures forall i, j :: 0 <= i < j < |slugs| ==> slugs[i] != slugs[j]
    ensures forall i :: 0 <= i < |slugs| ==> TriedWithin(slugs[i], Slugify(names[i]), |existing| + i)
  {
    slugs := [];
    var taken := existing;
    for i := 0 to |names|
      invariant |slugs| == i && existing <= taken && |taken| == |existing| + i
      invariant forall j :: 0 <= j < i ==> slugs[j] in taken && slugs[j] !in existing
      invariant forall j, k :: 0 <= j < k < i ==> slugs[j] != slugs[k]
      invariant forall j :: 0 <= j < i ==> TriedWithin(slugs[j], Slugify(names[j]), |existing| + j)
    {
      var slug, n := Search(Slugify(names[i]), taken);
      slugs := slugs + [slug];
      taken := taken + {slug};
      assert slugs[i] == Candidate(Slugify(names[i]), n);
    }
  }
}
