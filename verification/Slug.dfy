/** URL slugs for organizations: a normalised, shortened name and a suffix taken from a stable id. */
module Slug {
  import opened Text

  const MAX_BASE := 40
  const SUFFIX := 8

  predicate Alnum(c: char) {
    'a' <= c <= 'z' || '0' <= c <= '9'
  }

  /** A slug keeps the small letters and the digits. */
  lemma AlnumIs(c: char)
    ensures Alnum(c) <==> c in LOWER || c in DIGITS
  {
    LowerIs(c);
  }

  function TrimLeftDashes(s: string): string {
    if s != "" && s[0] == '-' then TrimLeftDashes(s[1..]) else s
  }

  function TrimRightDashes(s: string): string {
    if s != "" && s[|s| - 1] == '-' then TrimRightDashes(s[..|s| - 1]) else s
  }

  function TrimDashes(s: string): string {
    TrimRightDashes(TrimLeftDashes(s))
  }

  /** Letters and digits kept, every run of anything else between them one dash, nothing before the first. */
  function Squeeze(s: string): string {
    if s == "" then ""
    else
      var init, c := Squeeze(s[..|s| - 1]), s[|s| - 1];
      if Alnum(c) then init + [c]
      else if init != "" && init[|init| - 1] != '-' then init + "-"
      else init
  }

  function Shorten(s: string): string {
    var base := TrimDashes(s);
    var named := if base == "" then "org" else base;
    if |named| > MAX_BASE then TrimDashes(named[..MAX_BASE]) else named
  }

  /** The slug base of an already lower-cased name. */
  function Base(lower: string): string {
    Shorten(Squeeze(lower))
  }

  /** `strings.ToLower`, which maps letter by letter; `fold` is its table. */
  function Lower(s: string, fold: char -> char): string {
    seq(|s|, i requires 0 <= i < |s| => fold(s[i]))
  }

  /** What Go reads for a byte that is not part of a whole character. */
  const BROKEN: char := '\U{FFFD}'

  function Broken(n: nat): string {
    seq(n, _ => BROKEN)
  }

  /** The whole characters among the last `n` bytes. */
  function Tail(s: string, n: nat): string {
    s[|s| - TailLength(s, n)..]
  }

  /** How many whole characters fit into the last `n` bytes. */
  function TailLength(s: string, n: nat): (k: nat)
    ensures k <= |s|
  {
    if s == "" || Width(s[|s| - 1]) > n then 0 else 1 + TailLength(s[..|s| - 1], n - Width(s[|s| - 1]))
  }

  lemma {:induction false} TailFits(s: string, n: nat)
    ensures ByteLength(Tail(s, n)) <= n
  {
    if s != "" && Width(s[|s| - 1]) <= n {
      var init, c := s[..|s| - 1], s[|s| - 1];
      TailFits(init, n - Width(c));
      assert Tail(s, n)[..|Tail(s, n)| - 1] == Tail(init, n - Width(c));
    }
  }

  /** The last `n` bytes as Go reads them: the rest of a character that is cut counts byte by byte. */
  function LastBytes(s: string, n: nat): string {
    TailFits(s, n);
    Broken(n - ByteLength(Tail(s, n))) + Tail(s, n)
  }

  function SuffixOf(id: string, fold: char -> char): string {
    Lower(if ByteLength(id) > SUFFIX then LastBytes(id, SUFFIX) else id, fold)
  }

  function Joined(base: string, suffix: string): string {
    base + "-" + suffix
  }

  function SlugOf(name: string, id: string, fold: char -> char): string {
    Joined(Base(Lower(name, fold)), SuffixOf(id, fold))
  }

  method Slugify(name: string, id: string, fold: char -> char) returns (slug: string)
    ensures slug == SlugOf(name, id, fold)
  {
    var lower := Lower(name, fold);
    var b: string := "";
    var lastDash := false;
    for i := 0 to |lower|
      invariant b == Squeeze(lower[..i])
      invariant lastDash <==> b != "" && b[|b| - 1] == '-'
    {
      assert lower[..i + 1][..i] == lower[..i];
      var r := lower[i];
      if Alnum(r) {
        b := b + [r];
        lastDash := false;
      } else if !lastDash && |b| > 0 {
        b := b + "-";
        lastDash := true;
      }
    }
    assert lower[..|lower|] == lower;
    var base := TrimDashes(b);
    if base == "" {
      base := "org";
    }
    if |base| > MAX_BASE {
      base := TrimDashes(base[..MAX_BASE]);
    }
    var suffix := id;
    if ByteLength(suffix) > SUFFIX {
      suffix := LastBytes(suffix, SUFFIX);
    }
    slug := base + "-" + Lower(suffix, fold);
  }

  /** Letters, digits and single dashes, starting with a letter or digit. */
  ghost predicate Squeezed(s: string) {
    && (forall i :: 0 <= i < |s| ==> Alnum(s[i]) || s[i] == '-')
    && (forall i :: 0 < i < |s| ==> s[i] != '-' || s[i - 1] != '-')
    && (s != "" ==> Alnum(s[0]))
  }

  /** A finished base: squeezed, not empty, at most 40 characters, and not ending in a dash. */
  ghost predicate WellFormed(s: string) {
    Squeezed(s) && 1 <= |s| <= MAX_BASE && Alnum(s[|s| - 1])
  }

  lemma {:induction false} SqueezeSqueezes(s: string)
    ensures Squeezed(Squeeze(s))
  {
    if s != "" {
      SqueezeSqueezes(s[..|s| - 1]);
    }
  }

  lemma {:induction false} TrimRightKeeps(s: string)
    requires Squeezed(s)
    ensures var t := TrimRightDashes(s);
            Squeezed(t) && t <= s && (t != "" ==> Alnum(t[|t| - 1])) && (t == "" <==> s == "")
  {
    if s != "" && s[|s| - 1] == '-' {
      TrimRightKeeps(s[..|s| - 1]);
    }
  }

  /** For every name the base is well formed. */
  lemma BaseIsWellFormed(lower: string)
    ensures WellFormed(Base(lower))
  {
    var b := Squeeze(lower);
    SqueezeSqueezes(lower);
    assert TrimLeftDashes(b) == b;
    TrimRightKeeps(b);
    var base := TrimDashes(b);
    var named := if base == "" then "org" else base;
    assert Squeezed(named);
    if |named| > MAX_BASE {
      var cut := named[..MAX_BASE];
      assert Squeezed(cut);
      assert TrimLeftDashes(cut) == cut;
      TrimRightKeeps(cut);
    }
  }

  /** The maximal runs of letters and digits, in order. */
  function Words(s: string): seq<string> {
    if s == "" then []
    else
      var rest, init, c := Words(s[..|s| - 1]), s[..|s| - 1], s[|s| - 1];
      if !Alnum(c) then rest
      else if init != "" && Alnum(init[|init| - 1]) && rest != [] then
        rest[..|rest| - 1] + [rest[|rest| - 1] + [c]]
      else rest + [[c]]
  }

  /** Words joined by single dashes. */
  function Dashed(words: seq<string>): string {
    if words == [] then ""
    else if |words| == 1 then words[0]
    else Dashed(words[..|words| - 1]) + "-" + words[|words| - 1]
  }

  lemma {:induction false} WordsAre(s: string)
    ensures forall w :: w in Words(s) ==> w != "" && forall i :: 0 <= i < |w| ==> Alnum(w[i])
    ensures s != "" && Alnum(s[|s| - 1]) ==> Words(s) != []
  {
    if s != "" {
      WordsAre(s[..|s| - 1]);
      var rest := Words(s[..|s| - 1]);
      if rest != [] {
        assert rest[|rest| - 1] in rest;
      }
    }
  }

  lemma DashedAdded(words: seq<string>, w: string)
    ensures Dashed(words + [w]) == if words == [] then w else Dashed(words) + "-" + w
  {
    assert (words + [w])[..|words|] == words;
  }

  lemma DashedExtended(init: seq<string>, w: string, c: char)
    ensures Dashed(init + [w + [c]]) == Dashed(init + [w]) + [c]
  {
    DashedAdded(init, w);
    DashedAdded(init, w + [c]);
    var d := Dashed(init);
    assert d + "-" + (w + [c]) == d + "-" + w + [c];
  }

  lemma {:induction false} DashedEnds(words: seq<string>)
    requires words != [] && forall w :: w in words ==> w != "" && forall i :: 0 <= i < |w| ==> Alnum(w[i])
    ensures Dashed(words) != "" && Alnum(Dashed(words)[|Dashed(words)| - 1])
  {
    assert words[|words| - 1] in words;
  }

  lemma WordsStep(init: string, c: char)
    requires Alnum(c)
    ensures var rest := Words(init);
            Words(init + [c]) ==
              if init != "" && Alnum(init[|init| - 1]) && rest != [] then rest[..|rest| - 1] + [rest[|rest| - 1] + [c]]
              else rest + [[c]]
  {
    assert (init + [c])[..|init|] == init;
  }

  lemma SqueezeStep(init: string, c: char)
    ensures var b := Squeeze(init);
            Squeeze(init + [c]) ==
              if Alnum(c) then b + [c] else if b != "" && b[|b| - 1] != '-' then b + "-" else b
  {
    assert (init + [c])[..|init|] == init;
  }

  /** What follows the last word in a squeezed name. */
  function Rest(s: string): string {
    if Words(s) != [] && !Alnum(s[|s| - 1]) then "-" else ""
  }

  lemma SqueezeWord(init: string, c: char)
    requires Alnum(c) && Squeeze(init) == Dashed(Words(init)) + Rest(init)
    ensures Squeeze(init + [c]) == Dashed(Words(init + [c])) && Rest(init + [c]) == ""
  {
    WordsAre(init);
    WordsStep(init, c);
    SqueezeStep(init, c);
    var words := Words(init);
    if init != "" && Alnum(init[|init| - 1]) {
      assert words == words[..|words| - 1] + [words[|words| - 1]];
      DashedExtended(words[..|words| - 1], words[|words| - 1], c);
    } else {
      DashedAdded(words, [c]);
    }
  }

  lemma SqueezeGap(init: string, c: char)
    requires !Alnum(c) && Squeeze(init) == Dashed(Words(init)) + Rest(init)
    ensures Squeeze(init + [c]) == Dashed(Words(init + [c])) + Rest(init + [c])
  {
    WordsAre(init);
    SqueezeStep(init, c);
    assert (init + [c])[..|init|] == init;
    if Words(init) != [] {
      DashedEnds(Words(init));
    }
  }

  /** Squeezing a name gives its words joined by dashes, with one more dash if something follows the last word. */
  lemma {:induction false} SqueezeIsDashed(s: string)
    ensures Squeeze(s) == Dashed(Words(s)) + Rest(s)
  {
    if s != "" {
      var init, c := s[..|s| - 1], s[|s| - 1];
      SqueezeIsDashed(init);
      assert s == init + [c];
      if Alnum(c) {
        SqueezeWord(init, c);
      } else {
        SqueezeGap(init, c);
      }
    }
  }

  /** The base before shortening is the name's words joined by single dashes, or "org" for a name without any. */
  lemma TrimmedIsDashed(lower: string)
    ensures TrimDashes(Squeeze(lower)) == Dashed(Words(lower))
  {
    SqueezeIsDashed(lower);
    SqueezeSqueezes(lower);
    WordsAre(lower);
    var words, b := Words(lower), Squeeze(lower);
    assert TrimLeftDashes(b) == b;
    if words != [] {
      DashedEnds(words);
      var d := Dashed(words);
      assert b == d || (b == d + "-" && b[..|b| - 1] == d);
      assert TrimRightDashes(d) == d;
    }
  }

  /** So the base of a name is its words joined by dashes, unless there are none, or more than forty characters. */
  lemma BaseIsDashed(lower: string)
    ensures var words := Dashed(Words(lower));
            Base(lower) == if words == "" then "org" else if |words| <= 40 then words else TrimDashes(words[..40])
  {
    TrimmedIsDashed(lower);
  }

  lemma {:induction false} SqueezeFixed(s: string)
    requires Squeezed(s)
    ensures Squeeze(s) == s
  {
    if s != "" {
      var init := s[..|s| - 1];
      assert Squeezed(init);
      SqueezeFixed(init);
      assert s == init + [s[|s| - 1]];
      if s[|s| - 1] == '-' {
        assert init != "" && init[|init| - 1] == s[|s| - 2];
      }
    }
  }

  /** Normalising a base again changes nothing, so bases are exactly the well-formed strings. */
  lemma WellFormedIsFixed(s: string)
    requires WellFormed(s)
    ensures Base(s) == s
  {
    SqueezeFixed(s);
  }

  lemma BaseIffWellFormed(s: string)
    ensures WellFormed(s) <==> Base(s) == s
  {
    BaseIsWellFormed(s);
    if WellFormed(s) {
      WellFormedIsFixed(s);
    }
  }

  predicate Ascii(s: string) {
    forall i :: 0 <= i < |s| ==> Width(s[i]) == 1
  }

  lemma {:induction false} AsciiBytes(s: string)
    requires Ascii(s)
    ensures ByteLength(s) == |s|
  {
    if s != "" {
      AsciiBytes(s[..|s| - 1]);
    }
  }

  lemma {:induction false} AsciiTail(s: string, n: nat)
    requires Ascii(s)
    ensures TailLength(s, n) == if |s| > n then n else |s|
    decreases |s|
  {
    if s != "" && n > 0 {
      assert Width(s[|s| - 1]) == 1;
      AsciiTail(s[..|s| - 1], n - 1);
    }
  }

  /** Of an ASCII id the suffix is the last eight characters. */
  lemma AsciiSuffix(id: string, fold: char -> char)
    requires Ascii(id)
    ensures SuffixOf(id, fold) == Lower(if |id| > SUFFIX then id[|id| - SUFFIX..] else id, fold)
  {
    AsciiBytes(id);
    if |id| > SUFFIX {
      var tail := id[|id| - SUFFIX..];
      AsciiTail(id, SUFFIX);
      assert Tail(id, SUFFIX) == tail;
      AsciiBytes(tail);
      assert Broken(0) + tail == tail;
    }
  }

  /** Two organizations of the same name, or of names with the same base, share a slug exactly when their suffixes
      agree, however short the ids are. */
  lemma SameNameSlugsCollideIff(name: string, id: string, name': string, id': string, fold: char -> char)
    requires Base(Lower(name, fold)) == Base(Lower(name', fold))
    ensures SlugOf(name, id, fold) == SlugOf(name', id', fold) <==> SuffixOf(id, fold) == SuffixOf(id', fold)
  {
    if SlugOf(name, id, fold) == SlugOf(name', id', fold) {
      SameLengthBases(Base(Lower(name, fold)), SuffixOf(id, fold), Base(Lower(name', fold)), SuffixOf(id', fold));
    }
  }

  /** The second base runs on into what the first slug holds in its suffix. */
  ghost predicate Shifted(base: string, suffix: string, base': string, suffix': string) {
    exists mid :: base' == Joined(base, mid) && suffix == Joined(mid, suffix')
  }

  lemma ShiftedMeet(base: string, mid: string, suffix: string)
    ensures Joined(base, Joined(mid, suffix)) == Joined(Joined(base, mid), suffix)
  {
  }

  lemma LongerBaseIsShifted(base: string, suffix: string, base': string, suffix': string)
    requires Joined(base, suffix) == Joined(base', suffix') && |base| < |base'|
    ensures Shifted(base, suffix, base', suffix')
  {
    var s, mid := Joined(base, suffix), base'[|base| + 1..];
    assert base == s[..|base|] && suffix == s[|base| + 1..];
    assert base' == s[..|base'|] && suffix' == s[|base'| + 1..];
    assert s[|base|] == '-' && s[|base'|] == '-';
    assert base' == Joined(base, mid);
    assert suffix == Joined(mid, suffix');
  }

  lemma SameLengthBases(base: string, suffix: string, base': string, suffix': string)
    requires Joined(base, suffix) == Joined(base', suffix') && |base| == |base'|
    ensures base == base' && suffix == suffix'
  {
    var s := Joined(base, suffix);
    assert base == s[..|base|] && suffix == s[|base| + 1..];
    assert base' == s[..|base'|] && suffix' == s[|base'| + 1..];
  }

  lemma JoinedMeetIff(base: string, suffix: string, base': string, suffix': string)
    ensures Joined(base, suffix) == Joined(base', suffix') <==>
              || (base == base' && suffix == suffix')
              || Shifted(base, suffix, base', suffix') || Shifted(base', suffix', base, suffix)
  {
    if Joined(base, suffix) == Joined(base', suffix') {
      if |base| < |base'| {
        LongerBaseIsShifted(base, suffix, base', suffix');
      } else if |base'| < |base| {
        LongerBaseIsShifted(base', suffix', base, suffix);
      } else {
        SameLengthBases(base, suffix, base', suffix');
      }
    } else if Shifted(base, suffix, base', suffix') {
      var mid :| base' == Joined(base, mid) && suffix == Joined(mid, suffix');
      ShiftedMeet(base, mid, suffix');
    } else if Shifted(base', suffix', base, suffix) {
      var mid :| base == Joined(base', mid) && suffix' == Joined(mid, suffix);
      ShiftedMeet(base', mid, suffix);
    }
  }

  /** For any names and ids: two slugs are equal exactly when base and suffix are, or when a dash in one suffix lets the
      other base reach into it. */
  lemma SlugsCollideIff(name: string, id: string, name': string, id': string, fold: char -> char)
    ensures var base, base' := Base(Lower(name, fold)), Base(Lower(name', fold));
            var suffix, suffix' := SuffixOf(id, fold), SuffixOf(id', fold);
            SlugOf(name, id, fold) == SlugOf(name', id', fold) <==>
              || (base == base' && suffix == suffix')
              || Shifted(base, suffix, base', suffix') || Shifted(base', suffix', base, suffix)
  {
    JoinedMeetIff(Base(Lower(name, fold)), SuffixOf(id, fold), Base(Lower(name', fold)), SuffixOf(id', fold));
  }

  /** With ASCII ids of eight or more characters only equal bases and suffixes meet. */
  lemma LongIdsCollideIff(name: string, id: string, name': string, id': string, fold: char -> char)
    requires Ascii(id) && Ascii(id') && |id| >= SUFFIX && |id'| >= SUFFIX
    ensures SlugOf(name, id, fold) == SlugOf(name', id', fold) <==>
              Base(Lower(name, fold)) == Base(Lower(name', fold)) && SuffixOf(id, fold) == SuffixOf(id', fold)
  {
    AsciiSuffix(id, fold);
    AsciiSuffix(id', fold);
    if SlugOf(name, id, fold) == SlugOf(name', id', fold) {
      SameLengthBases(Base(Lower(name, fold)), SuffixOf(id, fold), Base(Lower(name', fold)), SuffixOf(id', fold));
    }
  }

  /** The characters of slugs. */
  predicate SlugChar(c: char) {
    Alnum(c) || c == '-'
  }

  /** A case table, like `strings.ToLower`'s, that leaves digits, dashes and lower-case letters alone. */
  ghost predicate KeepsSlugs(fold: char -> char) {
    forall c :: SlugChar(c) ==> fold(c) == c
  }

  lemma LowerKeepsSlugs(s: string, fold: char -> char)
    requires KeepsSlugs(fold) && forall i :: 0 <= i < |s| ==> SlugChar(s[i])
    ensures Lower(s, fold) == s
  {
  }

  lemma {:induction false} BytesOfConcat(a: string, b: string)
    ensures ByteLength(a + b) == ByteLength(a) + ByteLength(b)
  {
    if b == "" {
      assert a + b == a;
    } else {
      BytesOfConcat(a, b[..|b| - 1]);
      assert (a + b)[..|a + b| - 1] == a + b[..|b| - 1];
    }
  }

  lemma LowerOfJoined(mid: string, id: string, fold: char -> char)
    requires KeepsSlugs(fold) && forall i :: 0 <= i < |mid| ==> SlugChar(mid[i])
    ensures Lower(Joined(mid, id), fold) == Joined(mid, Lower(id, fold))
  {
  }

  lemma MidIsSlug(name: string, mid: string)
    requires WellFormed(Joined(name, mid))
    ensures forall i :: 0 <= i < |mid| ==> SlugChar(mid[i])
  {
    var long := Joined(name, mid);
    assert forall i :: 0 <= i < |mid| ==> mid[i] == long[|name| + 1 + i];
  }

  lemma SlugOfSlug(name: string, id: string, fold: char -> char)
    requires KeepsSlugs(fold) && WellFormed(name) && ByteLength(id) <= SUFFIX
    ensures SlugOf(name, id, fold) == Joined(name, Lower(id, fold))
  {
    LowerKeepsSlugs(name, fold);
    WellFormedIsFixed(name);
  }

  /** Short ids with dashes do meet: "a" with id "b-c" and "a-b" with id "c", and all like them. */
  lemma DashedIdsMeet(name: string, mid: string, id: string, fold: char -> char)
    requires KeepsSlugs(fold) && WellFormed(name) && WellFormed(Joined(name, mid))
    requires ByteLength(Joined(mid, id)) <= SUFFIX
    ensures SlugOf(name, Joined(mid, id), fold) == SlugOf(Joined(name, mid), id, fold)
  {
    BytesOfConcat(mid + "-", id);
    SlugOfSlug(name, Joined(mid, id), fold);
    SlugOfSlug(Joined(name, mid), id, fold);
    MidIsSlug(name, mid);
    LowerOfJoined(mid, id, fold);
    ShiftedMeet(name, mid, Lower(id, fold));
  }
}
