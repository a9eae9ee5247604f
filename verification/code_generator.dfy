/**
  Identifier generation: prefixed random codes over an unambiguous alphabet,
  URL slugs, numbered slug suffixes and the "retry until unused" loops.
  A random generator is modelled by the sequence of indices it produced.
 */
module CodeGenerator {
  import opened Wrappers
  import opened Text

  /** The code alphabet: digits 2-9 and upper-case letters without I and O. */
  const Alphabet: string := "23456789ABCDEFGHJKLMNPQRSTUVWXYZ"

  /** The API key alphabet adds the lower-case letters without l. */
  const KeyAlphabet: string := Alphabet + "abcdefghijkmnopqrstuvwxyz"

  /** The characters a reader could confuse with one another. */
  predicate Ambiguous(c: char) {
    c == '0' || c == '1' || c == 'O' || c == 'I' || c == 'l'
  }

  lemma AlphabetsAreUnambiguous()
    ensures |Alphabet| == 32 && |KeyAlphabet| == 57
    ensures forall i :: 0 <= i < |KeyAlphabet| ==> !Ambiguous(KeyAlphabet[i])
    ensures forall i :: 0 <= i < |Alphabet| ==> Alphabet[i] in KeyAlphabet
  {
  }

  /**
    `customAlphabet(alphabet, len)()`: `len` characters, the k-th chosen by the k-th
    random index (taken modulo the alphabet size; a missing index picks the first letter).
   */
  function RandomString(alphabet: string, picks: seq<nat>, len: nat): (r: string)
    requires |alphabet| > 0
    ensures |r| == len
    ensures forall k :: 0 <= k < len ==> r[k] in alphabet
    ensures forall k :: 0 <= k < len && k < |picks| ==> r[k] == alphabet[picks[k] % |alphabet|]
  {
    seq(len, k requires 0 <= k < len => alphabet[(if k < |picks| then picks[k] else 0) % |alphabet|])
  }

  /** A code: the prefix followed by `len` alphabet characters. */
  predicate IsCode(s: string, prefix: string, len: nat) {
    |s| == |prefix| + len && s[..|prefix|] == prefix
    && forall k :: |prefix| <= k < |s| ==> s[k] in Alphabet
  }

  /** `generateCardCode`: `SB-` and eight characters. */
  function CardCode(picks: seq<nat>): (r: string)
    ensures IsCode(r, "SB-", 8)
  {
    "SB-" + RandomString(Alphabet, picks, 8)
  }

  /** `generateManagerCode`: `MGR-` and six characters. */
  function ManagerCode(picks: seq<nat>): (r: string)
    ensures IsCode(r, "MGR-", 6)
  {
    "MGR-" + RandomString(Alphabet, picks, 6)
  }

  /** `generateEstablishmentCode`: `EST-` and six characters. */
  function EstablishmentCode(picks: seq<nat>): (r: string)
    ensures IsCode(r, "EST-", 6)
  {
    "EST-" + RandomString(Alphabet, picks, 6)
  }

  /** `generatePOSTerminalId`: `POS-` and eight characters. */
  function PosTerminalId(picks: seq<nat>): (r: string)
    ensures IsCode(r, "POS-", 8)
  {
    "POS-" + RandomString(Alphabet, picks, 8)
  }

  /** `generatePOSApiKey`: 32 characters of the wider key alphabet, none of them ambiguous. */
  function PosApiKey(picks: seq<nat>): (r: string)
    ensures |r| == 32
    ensures forall k :: 0 <= k < 32 ==> r[k] in KeyAlphabet && !Ambiguous(r[k])
  {
    AlphabetsAreUnambiguous();
    RandomString(KeyAlphabet, picks, 32)
  }

  /** Codes of different kinds never collide, whatever the random indices. */
  lemma CodeKindsDisjoint(a: seq<nat>, b: seq<nat>)
    ensures CardCode(a) != ManagerCode(b) && CardCode(a) != EstablishmentCode(b) && CardCode(a) != PosTerminalId(b)
    ensures ManagerCode(a) != EstablishmentCode(b) && ManagerCode(a) != PosTerminalId(b)
    ensures EstablishmentCode(a) != PosTerminalId(b)
  {
    assert CardCode(a)[0] == 'S' && ManagerCode(b)[0] == 'M' && EstablishmentCode(b)[0] == 'E' && PosTerminalId(b)[0] == 'P';
    assert ManagerCode(a)[0] == 'M' && EstablishmentCode(a)[0] == 'E';
  }

  // ---------------------------------------------------------------- retry loops

  /**
    `while (exists) { code = generate(); exists = lookup(code) }`, over the finite list of
    codes the generator produced: the first one not already taken, if any.
   */
  function FirstFresh(candidates: seq<string>, taken: set<string>): (r: Option<string>)
    ensures r.Some? ==> r.value in candidates && r.value !in taken
    ensures r.Some? ==> exists i :: (0 <= i < |candidates| && candidates[i] == r.value
      && forall j :: 0 <= j < i ==> candidates[j] in taken)
    ensures r.None? <==> forall j :: 0 <= j < |candidates| ==> candidates[j] in taken
  {
    if candidates == [] then None
    else if candidates[0] !in taken then Some(candidates[0])
    else
      var r := FirstFresh(candidates[1..], taken);
      if r.Some? then
        assert forall j :: 1 <= j < |candidates| ==> candidates[j] == candidates[1..][j - 1];
        r
      else r
  }

  // ---------------------------------------------------------------- slugs

  /** `\w`: ASCII letters, digits and the underscore. */
  predicate IsWordChar(c: char) {
    ('a' <= c <= 'z') || ('A' <= c <= 'Z') || IsDigit(c) || c == '_'
  }

  /** Unicode combining diacritical marks, U+0300 to U+036F. */
  predicate IsCombiningMark(c: char) {
    '\U{0300}' <= c <= '\U{036F}'
  }

  /** The characters a slug can contain. */
  predicate IsSlugChar(c: char) {
    ('a' <= c <= 'z') || IsDigit(c) || c == '_' || c == '-'
  }

  /** A well-formed slug: slug characters only and never two hyphens in a row. */
  predicate IsSlug(s: string) {
    && (forall i :: 0 <= i < |s| ==> IsSlugChar(s[i]))
    && (forall i :: 0 <= i < |s| - 1 ==> !(s[i] == '-' && s[i + 1] == '-'))
  }

  /** Removes the combining diacritical marks, as the source's `[\u0300-\u036f]` replacement does. */
  function RemoveMarks(s: string): (r: string)
    ensures |r| <= |s|
    ensures forall i :: 0 <= i < |r| ==> !IsCombiningMark(r[i]) && r[i] in s
  {
    if s == [] then []
    else (if IsCombiningMark(s[0]) then [] else [s[0]]) + RemoveMarks(s[1..])
  }

  /** `s.replace(/[^\w\s-]/g, '')`. */
  function KeepWordSpaceHyphen(s: string): (r: string)
    ensures |r| <= |s|
    ensures forall i :: 0 <= i < |r| ==> (IsWordChar(r[i]) || IsJsSpace(r[i]) || r[i] == '-') && r[i] in s
  {
    if s == [] then []
    else (if IsWordChar(s[0]) || IsJsSpace(s[0]) || s[0] == '-' then [s[0]] else []) + KeepWordSpaceHyphen(s[1..])
  }

  /** Drops the leading characters satisfying `IsJsSpace`. */
  function DropSpaces(s: string): (r: string)
    ensures |r| <= |s| && r == s[|s| - |r|..]
    ensures r != [] ==> !IsJsSpace(r[0])
  {
    if s != [] && IsJsSpace(s[0]) then DropSpaces(s[1..]) else s
  }

  /** Drops the leading hyphens. */
  function DropHyphens(s: string): (r: string)
    ensures |r| <= |s| && r == s[|s| - |r|..]
    ensures r != [] ==> r[0] != '-'
  {
    if s != [] && s[0] == '-' then DropHyphens(s[1..]) else s
  }

  /** `s.replace(/\s+/g, '-')`: every maximal run of white space becomes one hyphen. */
  function SpacesToHyphens(s: string): (r: string)
    ensures forall i :: 0 <= i < |r| ==> !IsJsSpace(r[i]) && (r[i] == '-' || r[i] in s)
    decreases |s|
  {
    if s == [] then []
    else if IsJsSpace(s[0]) then "-" + SpacesToHyphens(DropSpaces(s[1..]))
    else [s[0]] + SpacesToHyphens(s[1..])
  }

  /** `s.replace(/-+/g, '-')`: every maximal run of hyphens becomes one hyphen. */
  function CollapseHyphens(s: string): (r: string)
    ensures forall i :: 0 <= i < |r| ==> r[i] in s
    ensures forall i :: 0 <= i < |r| - 1 ==> !(r[i] == '-' && r[i + 1] == '-')
    ensures r != [] && s != [] ==> (r[0] == '-' <==> s[0] == '-')
    decreases |s|
  {
    if s == [] then []
    else if s[0] == '-' then
      var rest := CollapseHyphens(DropHyphens(s[1..]));
      assert rest != [] ==> rest[0] != '-';
      "-" + rest
    else [s[0]] + CollapseHyphens(s[1..])
  }

  /** `String.prototype.trim`: removes leading and trailing white space. */
  function Trim(s: string): (r: string)
    ensures |r| <= |s|
    ensures r != [] ==> !IsJsSpace(r[0]) && !IsJsSpace(r[|r| - 1])
    ensures (forall i :: 0 <= i < |s| ==> !IsJsSpace(s[i])) ==> r == s
    decreases |s|
  {
    if s == [] then []
    else if IsJsSpace(s[0]) then Trim(s[1..])
    else if IsJsSpace(s[|s| - 1]) then Trim(s[..|s| - 1])
    else s
  }

  /**
    `generateSlug`: lower-case, strip combining marks, drop everything but word
    characters, white space and hyphens, turn white-space runs into one hyphen,
    squeeze hyphen runs, trim. The input is taken as already NFD-decomposed.
   */
  function GenerateSlug(name: string): (r: string)
  {
    Trim(CollapseHyphens(SpacesToHyphens(KeepWordSpaceHyphen(RemoveMarks(LowerAscii(name))))))
  }

  /** Every slug is well formed: lower-case word characters and single hyphens only. */
  lemma GenerateSlugIsSlug(name: string)
    ensures IsSlug(GenerateSlug(name))
  {
    var lowered := LowerAscii(name);
    assert forall i :: 0 <= i < |lowered| ==> !('A' <= lowered[i] <= 'Z');
    var kept := KeepWordSpaceHyphen(RemoveMarks(lowered));
    assert forall i :: 0 <= i < |kept| ==> kept[i] in lowered;
    var hy := SpacesToHyphens(kept);
    assert forall i :: 0 <= i < |hy| ==> IsSlugChar(hy[i]);
    var col := CollapseHyphens(hy);
    assert forall i :: 0 <= i < |col| ==> IsSlugChar(col[i]) && !IsJsSpace(col[i]);
    assert Trim(col) == col;
  }

  lemma {:induction false} FilterStepsFixSlugs(s: string)
    requires IsSlug(s)
    ensures RemoveMarks(s) == s && KeepWordSpaceHyphen(s) == s
  {
    if s != [] {
      assert IsSlug(s[1..]);
      FilterStepsFixSlugs(s[1..]);
    }
  }

  lemma {:induction false} SpacesToHyphensFixesSlugs(s: string)
    requires IsSlug(s)
    ensures SpacesToHyphens(s) == s
  {
    if s != [] {
      assert IsSlug(s[1..]);
      SpacesToHyphensFixesSlugs(s[1..]);
    }
  }

  lemma {:induction false} CollapseHyphensFixesSlugs(s: string)
    requires IsSlug(s)
    ensures CollapseHyphens(s) == s
  {
    if s != [] {
      assert IsSlug(s[1..]);
      CollapseHyphensFixesSlugs(s[1..]);
      if s[0] == '-' {
        assert s[1..] == [] || s[1] != '-';
        assert DropHyphens(s[1..]) == s[1..];
      }
    }
  }

  /** On a well-formed slug every step of the pipeline is the identity. */
  lemma SlugStepsFixSlugs(s: string)
    requires IsSlug(s)
    ensures LowerAscii(s) == s && RemoveMarks(s) == s && KeepWordSpaceHyphen(s) == s
    ensures SpacesToHyphens(s) == s && CollapseHyphens(s) == s && Trim(s) == s
  {
    FilterStepsFixSlugs(s);
    SpacesToHyphensFixesSlugs(s);
    CollapseHyphensFixesSlugs(s);
  }

  /** Slugifying a slug changes nothing. */
  lemma GenerateSlugIdempotent(name: string)
    ensures GenerateSlug(GenerateSlug(name)) == GenerateSlug(name)
  {
    GenerateSlugIsSlug(name);
    SlugStepsFixSlugs(GenerateSlug(name));
  }

  lemma EdgeHyphenSteps()
    ensures LowerAscii(" A ") == " a "
    ensures RemoveMarks(" a ") == " a "
    ensures KeepWordSpaceHyphen(" a ") == " a "
  {
    assert LowerAscii(" A ")[1] == 'a';
  }

  lemma EdgeSpacesToHyphens()
    ensures SpacesToHyphens(" a ") == "-a-"
  {
    assert !IsJsSpace('a') && IsJsSpace(' ');
    assert DropSpaces("") == "";
    assert SpacesToHyphens(" ") == "-";
    assert SpacesToHyphens("a ") == "a-";
    assert DropSpaces("a ") == "a ";
  }

  lemma EdgeCollapseHyphens()
    ensures CollapseHyphens("-a-") == "-a-"
  {
    assert IsSlug("-a-");
    CollapseHyphensFixesSlugs("-a-");
  }

  /** Because white space has already become hyphens, the final trim removes nothing: edge hyphens stay. */
  lemma SlugKeepsEdgeHyphens()
    ensures GenerateSlug(" A ") == "-a-"
  {
    EdgeHyphenSteps();
    EdgeSpacesToHyphens();
    EdgeCollapseHyphens();
  }

  /** `addSlugSuffix`: `base-counter`. */
  function AddSlugSuffix(base: string, counter: nat): (r: string)
    ensures |r| == |base| + 1 + |NatToString(counter)|
    ensures r[..|base|] == base && r[|base|] == '-'
    ensures r[|base| + 1..] == NatToString(counter)
  {
    base + "-" + NatToString(counter)
  }

  /** Different counters give different suffixed slugs. */
  lemma AddSlugSuffixInjective(base: string, a: nat, b: nat)
    requires AddSlugSuffix(base, a) == AddSlugSuffix(base, b)
    ensures a == b
  {
    NatToStringInjective(a, b);
  }
}
