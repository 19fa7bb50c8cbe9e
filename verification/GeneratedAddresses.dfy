/**
 The generated addresses file: constants above a marker line, a hand-written section from the
 marker on. Regenerating never changes the hand-written section.
 */
module GeneratedAddresses {
  import opened Options

  // Long texts are joined from shorter literals: the verifier does not look inside longer ones.
  const MARKER := "// === MANUAL SECTIONS" + " (preserved by generate-addresses.ts) ==="

  function Repeat(c: char, n: nat): (s: string)
    ensures |s| == n && forall x :: x in s ==> x == c
  {
    if n == 0 then "" else [c] + Repeat(c, n - 1)
  }

  const RULER := "// " + Repeat('=', 77)

  /** What the generator appends after the marker when there is no manual section yet. */
  const STUB_LINES: seq<string> := [
    RULER,
    "// Add manual sections below this marker. They will be preserved when",
    "// regenerating contract addresses from registry.json.",
    "//",
    "// Sections to add here:",
    "// - APPROVED_ROUTERS (per-chain router address lists)",
    "// - TOKEN_ADDRESSES (per-chain token addresses)",
    "// - Helper functions (hasDeployedContract, getContractAddress, etc.)",
    "// - Re-exports from @arbitrage/config",
    RULER
  ]

  /** Lines, each ended by a newline. */
  function Text(lines: seq<string>): string {
    if lines == [] then "" else lines[0] + "\n" + Text(lines[1..])
  }

  // ---------------------------------------------------------------------------
  // Searching
  // ---------------------------------------------------------------------------

  predicate OccursAt(s: string, m: string, i: int) {
    0 <= i <= |s| - |m| && s[i..i + |m|] == m
  }

  ghost predicate Contains(s: string, m: string) {
    exists i :: OccursAt(s, m, i)
  }

  /** The first occurrence from position i on. */
  function IndexFrom(s: string, m: string, i: nat): (k: Option<nat>)
    requires i <= |s|
    ensures k.None? ==> forall j :: i <= j ==> !OccursAt(s, m, j)
    ensures k.Some? ==> i <= k.value && OccursAt(s, m, k.value) && forall j :: i <= j < k.value ==> !OccursAt(s, m, j)
    decreases |s| - i
  {
    if OccursAt(s, m, i) then Some(i)
    else if i == |s| then None
    else IndexFrom(s, m, i + 1)
  }

  /** The manual section of a file: everything from the first marker on; empty when there is no file or no marker. */
  function ExtractManualSections(file: Option<string>): string {
    if file.None? then "" else
      match IndexFrom(file.value, MARKER, 0)
      case None => ""
      case Some(i) => file.value[i..]
  }

  // ---------------------------------------------------------------------------
  // Generation
  // ---------------------------------------------------------------------------

  datatype Column = Column(contractType: string, constant: string, entries: seq<(string, string)>)

  const WARNING_LINE :=
    " * \U{26A0}\U{FE0F}  AUTO-GENERATED CONTRACT ADDRESSES" + " - DO NOT EDIT THE SECTION ABOVE THE MARKER"
  const DEPLOY_LINE := " * 1. Deploy contract: npx hardhat run" + " scripts/deploy.ts --network <chain>"
  const MANUAL_LINE := " * Manual sections below the" + " marker (APPROVED_ROUTERS," + " TOKEN_ADDRESSES, helpers)"
  const CONSTANTS_LINE := "// Contract Address Constants" + " (auto-generated from registry.json)"

  function Header(timestamp: string): seq<string> {
    Intro(timestamp) + (Instructions() + SectionTitle())
  }

  function Intro(timestamp: string): seq<string> {
    [ "/**",
      " * Contract Deployment Addresses",
      " *",
      WARNING_LINE,
      " *",
      " * Generated from: registry.json",
      " * Generator: scripts/generate-addresses.ts",
      " * Last updated: " + timestamp,
      " *" ]
  }

  function Instructions(): seq<string> {
    [ " * To update contract addresses:",
      DEPLOY_LINE,
      " * 2. Auto-generate: npm run generate:addresses",
      " * 3. Review changes and commit",
      " *",
      MANUAL_LINE,
      " * are preserved automatically during generation.",
      " */" ]
  }

  function SectionTitle(): seq<string> {
    ["", RULER, CONSTANTS_LINE, RULER, ""]
  }

  function Decimal(n: nat): string {
    (if n < 10 then "" else Decimal(n / 10)) + [(n % 10 + '0' as int) as char]
  }

  /** One JSON property, names and addresses as they are printed. */
  function EntryLine(entry: (string, string), last: bool): string {
    "  \"" + entry.0 + "\": \"" + entry.1 + (if last then "\"" else "\",")
  }

  function EntryLines(entries: seq<(string, string)>): seq<string> {
    if entries == [] then [] else [EntryLine(entries[0], |entries| == 1)] + EntryLines(entries[1..])
  }

  function CommentLines(c: Column): seq<string> {
    [ "/**",
      " * " + c.contractType + " contract addresses by chain.",
      " * Deployed contracts: " + Decimal(|c.entries|),
      " */" ]
  }

  function BlockLines(c: Column): seq<string> {
    CommentLines(c) + ConstantLines(c)
  }

  function ConstantLines(c: Column): seq<string> {
    (if c.entries == [] then
         ["export const " + c.constant + ": Record<string, string> = {};"]
       else
         ["export const " + c.constant + ": Record<string, string> = {"] + EntryLines(c.entries) + ["};"])
    + [""]
  }

  function Blocks(columns: seq<Column>): seq<string> {
    if columns == [] then [] else BlockLines(columns[0]) + Blocks(columns[1..])
  }

  function Constants(timestamp: string, columns: seq<Column>): string {
    Text(Header(timestamp) + Blocks(columns))
  }

  const STUB := MARKER + "\n" + Text(STUB_LINES)

  /** The manual section of the next file: the old one, or the stub when there was none. */
  function Kept(file: Option<string>): string {
    var manual := ExtractManualSections(file);
    if manual != "" then manual else STUB
  }

  method GenerateTypeScriptCode(timestamp: string, columns: seq<Column>, file: Option<string>) returns (code: string)
    ensures code == Constants(timestamp, columns) + "\n" + Kept(file)
  {
    hide Header, Text, BlockLines;
    var header := Header(timestamp);
    code := Text(header);
    assert header + Blocks(columns[..0]) == header;
    for i := 0 to |columns|
      invariant code == Text(header + Blocks(columns[..i]))
    {
      code := code + Text(BlockLines(columns[i]));
      CodeSnoc(header, columns[..i], columns[i]);
      assert columns[..i + 1] == columns[..i] + [columns[i]];
    }
    assert columns[..|columns|] == columns;
    var manualSections := ExtractManualSections(file);
    if manualSections != "" {
      code := code + "\n" + manualSections;
    } else {
      code := code + "\n" + STUB;
    }
  }

  lemma CodeSnoc(header: seq<string>, columns: seq<Column>, c: Column)
    ensures Text(header + Blocks(columns)) + Text(BlockLines(c)) == Text(header + Blocks(columns + [c]))
  {
    BlocksSnoc(columns, c);
    TextConcat(header + Blocks(columns), BlockLines(c));
    assert (header + Blocks(columns)) + BlockLines(c) == header + Blocks(columns + [c]);
  }

  lemma {:induction false} TextConcat(a: seq<string>, b: seq<string>)
    ensures Text(a + b) == Text(a) + Text(b)
  {
    if a == [] {
      assert a + b == b;
    } else {
      assert (a + b)[1..] == a[1..] + b;
      TextConcat(a[1..], b);
    }
  }

  lemma {:induction false} BlocksSnoc(columns: seq<Column>, c: Column)
    ensures Blocks(columns + [c]) == Blocks(columns) + BlockLines(c)
  {
    if columns == [] {
      assert [] + [c] == [c] && [c][1..] == [];
      assert Blocks([c]) == BlockLines(c) + Blocks([]);
    } else {
      assert (columns + [c])[1..] == columns[1..] + [c];
      BlocksSnoc(columns[1..], c);
    }
  }

  // ---------------------------------------------------------------------------
  // The marker occurs nowhere above the boundary
  // ---------------------------------------------------------------------------

  /** An occurrence cannot start in a part without its first character. */
  lemma StartsLater(a: string, b: string, m: string)
    requires m != "" && m[0] !in a
    ensures Contains(a + b, m) ==> Contains(b, m)
  {
    if i :| OccursAt(a + b, m, i) {
      assert (a + b)[i..i + |m|][0] == (a + b)[i];
      assert i >= |a|;
      assert (a + b)[i..i + |m|] == b[i - |a|..i - |a| + |m|];
      assert OccursAt(b, m, i - |a|);
    }
  }

  /** An occurrence cannot end in a part without its last character. */
  lemma EndsEarlier(a: string, b: string, m: string)
    requires m != "" && m[|m| - 1] !in b
    ensures Contains(a + b, m) ==> Contains(a, m)
  {
    if i :| OccursAt(a + b, m, i) {
      assert (a + b)[i..i + |m|][|m| - 1] == (a + b)[i + |m| - 1];
      assert i + |m| <= |a|;
      assert (a + b)[i..i + |m|] == a[i..i + |m|];
      assert OccursAt(a, m, i);
    }
  }

  lemma MissingCharacter(s: string, m: string, c: char)
    requires c in m && c !in s
    ensures !Contains(s, m)
  {
  }

  /** A text of one line occurs within one line, wherever the line breaks are. */
  lemma WithinOneLine(a: string, b: string, m: string, i: int)
    requires '\n' !in m && m != ""
    requires OccursAt(a + "\n" + b, m, i)
    ensures OccursAt(a, m, i) || OccursAt(b, m, i - |a| - 1)
  {
    var s := a + "\n" + b;
    assert s[|a|] == '\n';
    assert i + |m| <= |a| ==> s[i..i + |m|] == a[i..i + |m|];
    assert i > |a| ==> s[i..i + |m|] == b[i - |a| - 1..i - |a| - 1 + |m|];
  }

  lemma {:induction false} NotInLines(lines: seq<string>, m: string)
    requires '\n' !in m && m != ""
    requires forall k :: 0 <= k < |lines| ==> !Contains(lines[k], m)
    ensures !Contains(Text(lines), m)
  {
    if lines != [] {
      NotInLines(lines[1..], m);
      forall i ensures !OccursAt(Text(lines), m, i) {
        if OccursAt(Text(lines), m, i) {
          WithinOneLine(lines[0], Text(lines[1..]), m, i);
        }
      }
    }
  }

  /** Text that is shorter than the marker or lacks one of its characters. */
  predicate Harmless(s: string) {
    |s| < |MARKER| || '/' !in s || '=' !in s || 'M' !in s
  }

  lemma HarmlessHasNoMarker(s: string)
    requires Harmless(s)
    ensures !Contains(s, MARKER)
  {
    assert MARKER[0] == '/' && MARKER[3] == '=' && MARKER[7] == 'M';
    if '/' !in s { MissingCharacter(s, MARKER, '/'); }
    if '=' !in s { MissingCharacter(s, MARKER, '='); }
    if 'M' !in s { MissingCharacter(s, MARKER, 'M'); }
  }

  lemma ShortIsHarmless(s: string)
    requires |s| <= 60
    ensures Harmless(s)
  {
  }

  lemma WarningLine()
    ensures Harmless(WARNING_LINE)
  {
    assert '/' !in WARNING_LINE;
  }

  lemma DeployLine()
    ensures Harmless(DEPLOY_LINE)
  {
    assert '=' !in DEPLOY_LINE;
  }

  lemma ManualLine()
    ensures Harmless(MANUAL_LINE)
  {
    assert '=' !in MANUAL_LINE;
  }

  lemma ConstantsLine()
    ensures Harmless(CONSTANTS_LINE)
  {
    assert '=' !in CONSTANTS_LINE;
  }

  lemma RulerLine()
    ensures Harmless(RULER)
  {
  }

  lemma SlashFreeIsHarmless(s: string)
    requires '/' !in s
    ensures Harmless(s)
  {
  }

  lemma IntroIsHarmless(timestamp: string, k: nat)
    requires '/' !in timestamp
    requires k < |Intro(timestamp)|
    ensures Harmless(Intro(timestamp)[k])
  {
    hide Harmless;
    if k == 3 {
      WarningLine();
    } else if k == 7 {
      assert '/' !in " * Last updated: ";
      SlashFreeIsHarmless(Intro(timestamp)[k]);
    } else {
      ShortIsHarmless(Intro(timestamp)[k]);
    }
  }

  lemma InstructionsAreHarmless(k: nat)
    requires k < |Instructions()|
    ensures Harmless(Instructions()[k])
  {
    hide Harmless;
    if k == 1 {
      DeployLine();
    } else if k == 5 {
      ManualLine();
    } else {
      ShortIsHarmless(Instructions()[k]);
    }
  }

  lemma SectionTitleIsHarmless(k: nat)
    requires k < |SectionTitle()|
    ensures Harmless(SectionTitle()[k])
  {
    hide Harmless;
    RulerLine();
    ConstantsLine();
    ShortIsHarmless("");
  }

  lemma TitleIsHarmless(k: nat)
    requires k < |Instructions() + SectionTitle()|
    ensures Harmless((Instructions() + SectionTitle())[k])
  {
    hide Harmless, Instructions, SectionTitle;
    if k < |Instructions()| {
      InstructionsAreHarmless(k);
    } else {
      SectionTitleIsHarmless(k - |Instructions()|);
    }
  }

  lemma {:induction false} DecimalHasNoSlash(n: nat)
    ensures '/' !in Decimal(n)
  {
    if n >= 10 {
      DecimalHasNoSlash(n / 10);
    }
  }

  /** Names of contract types and constants, and addresses as the validation step accepts them. */
  predicate Printable(c: Column) {
    && '/' !in c.contractType && '/' !in c.constant
    && forall k :: 0 <= k < |c.entries| ==> '=' !in c.entries[k].1
  }

  /** No network name of the registry contains the marker. */
  ghost predicate NamesAreClean(c: Column) {
    forall k :: 0 <= k < |c.entries| ==> !Contains(c.entries[k].0, MARKER)
  }

  lemma EntryHasNoMarker(entry: (string, string), last: bool)
    requires '=' !in entry.1 && !Contains(entry.0, MARKER)
    ensures !Contains(EntryLine(entry, last), MARKER)
  {
    var head := "  \"" + entry.0;
    var tail := "\": \"" + entry.1 + (if last then "\"" else "\",");
    assert EntryLine(entry, last) == head + tail;
    assert MARKER[0] == '/' && MARKER[|MARKER| - 1] == '=';
    EndsEarlier(head, tail, MARKER);
    StartsLater("  \"", entry.0, MARKER);
  }

  lemma {:induction false} EntriesHaveNoMarker(entries: seq<(string, string)>, k: nat)
    requires forall i :: 0 <= i < |entries| ==> '=' !in entries[i].1 && !Contains(entries[i].0, MARKER)
    requires k < |EntryLines(entries)|
    ensures !Contains(EntryLines(entries)[k], MARKER)
  {
    EntryHasNoMarker(entries[0], |entries| == 1);
    if k > 0 {
      EntriesHaveNoMarker(entries[1..], k - 1);
    }
  }

  lemma CommentHasNoMarker(c: Column, k: nat)
    requires Printable(c)
    requires k < |CommentLines(c)|
    ensures !Contains(CommentLines(c)[k], MARKER)
  {
    hide Harmless;
    var line := CommentLines(c)[k];
    if k == 1 {
      assert '/' !in " * " && '/' !in " contract addresses by chain.";
      SlashFreeIsHarmless(line);
    } else if k == 2 {
      DecimalHasNoSlash(|c.entries|);
      assert '/' !in " * Deployed contracts: ";
      SlashFreeIsHarmless(line);
    } else {
      ShortIsHarmless(line);
    }
    HarmlessHasNoMarker(line);
  }

  lemma ConstantHasNoMarker(c: Column, k: nat)
    requires Printable(c) && NamesAreClean(c)
    requires k < |ConstantLines(c)|
    ensures !Contains(ConstantLines(c)[k], MARKER)
  {
    hide Harmless;
    var line := ConstantLines(c)[k];
    if k == 0 {
      assert '/' !in "export const " && '/' !in ": Record<string, string> = {" &&
          '/' !in ": Record<string, string> = {};";
      SlashFreeIsHarmless(line);
      HarmlessHasNoMarker(line);
    } else if c.entries != [] && k < 1 + |EntryLines(c.entries)| {
      assert line == EntryLines(c.entries)[k - 1];
      EntriesHaveNoMarker(c.entries, k - 1);
    } else {
      ShortIsHarmless(line);
      HarmlessHasNoMarker(line);
    }
  }

  lemma BlockHasNoMarker(c: Column, k: nat)
    requires Printable(c) && NamesAreClean(c)
    requires k < |BlockLines(c)|
    ensures !Contains(BlockLines(c)[k], MARKER)
  {
    hide CommentLines, ConstantLines;
    var n := |CommentLines(c)|;
    if k < n {
      CommentHasNoMarker(c, k);
    } else {
      ConstantHasNoMarker(c, k - n);
    }
  }

  lemma {:induction false} BlocksHaveNoMarker(columns: seq<Column>, k: nat)
    requires forall i :: 0 <= i < |columns| ==> Printable(columns[i]) && NamesAreClean(columns[i])
    requires k < |Blocks(columns)|
    ensures !Contains(Blocks(columns)[k], MARKER)
  {
    var n := |BlockLines(columns[0])|;
    if k < n {
      BlockHasNoMarker(columns[0], k);
    } else {
      BlocksHaveNoMarker(columns[1..], k - n);
    }
  }

  /** Everything above the boundary is free of the marker. */
  lemma ConstantsHaveNoMarker(timestamp: string, columns: seq<Column>)
    requires '/' !in timestamp
    requires forall i :: 0 <= i < |columns| ==> Printable(columns[i]) && NamesAreClean(columns[i])
    ensures !Contains(Constants(timestamp, columns), MARKER)
  {
    hide BlockLines, Intro, Instructions, SectionTitle, Harmless;
    var lines := Header(timestamp) + Blocks(columns);
    var n := |Intro(timestamp)|;
    forall k | 0 <= k < |lines| ensures !Contains(lines[k], MARKER) {
      if k < n {
        IntroIsHarmless(timestamp, k);
        HarmlessHasNoMarker(lines[k]);
      } else if k < |Header(timestamp)| {
        TitleIsHarmless(k - n);
        HarmlessHasNoMarker(lines[k]);
      } else {
        BlocksHaveNoMarker(columns, k - |Header(timestamp)|);
      }
    }
    NotInLines(lines, MARKER);
  }

  // ---------------------------------------------------------------------------
  // Regeneration
  // ---------------------------------------------------------------------------

  function Generated(timestamp: string, columns: seq<Column>, file: Option<string>): string {
    Constants(timestamp, columns) + "\n" + Kept(file)
  }

  lemma KeptStartsWithMarker(file: Option<string>)
    ensures OccursAt(Kept(file), MARKER, 0)
  {
  }

  /** The first marker of a generated file is the boundary: what is extracted from it is what was kept in it. */
  lemma GeneratedKeepsManualSection(timestamp: string, columns: seq<Column>, file: Option<string>)
    requires '/' !in timestamp
    requires forall i :: 0 <= i < |columns| ==> Printable(columns[i]) && NamesAreClean(columns[i])
    ensures ExtractManualSections(Some(Generated(timestamp, columns, file))) == Kept(file)
  {
    ConstantsHaveNoMarker(timestamp, columns);
    KeptStartsWithMarker(file);
    MarkerHasNoNewline();
    FirstIsBoundary(Constants(timestamp, columns), Kept(file), MARKER);
  }

  lemma NotBeforeBoundary(above: string, kept: string, m: string, i: int)
    requires '\n' !in m && m != ""
    requires !Contains(above, m) && OccursAt(above + "\n" + kept, m, i)
    ensures i >= |above| + 1
  {
    WithinOneLine(above, kept, m, i);
  }

  lemma AtBoundary(above: string, kept: string, m: string)
    requires OccursAt(kept, m, 0)
    ensures OccursAt(above + "\n" + kept, m, |above| + 1)
    ensures (above + "\n" + kept)[|above| + 1..] == kept
  {
  }

  lemma FirstIsBoundary(above: string, kept: string, m: string)
    requires '\n' !in m && m != ""
    requires !Contains(above, m) && OccursAt(kept, m, 0)
    ensures IndexFrom(above + "\n" + kept, m, 0) == Some(|above| + 1)
    ensures (above + "\n" + kept)[|above| + 1..] == kept
  {
    hide IndexFrom, Contains, OccursAt;
    AtBoundary(above, kept, m);
    NotBeforeBoundary(above, kept, m, IndexFrom(above + "\n" + kept, m, 0).value);
  }

  lemma MarkerHasNoNewline()
    ensures '\n' !in MARKER
  {
  }

  datatype Round = Round(timestamp: string, columns: seq<Column>)

  /** Feed the generated file back as the source file, round after round. */
  function Regenerate(file: Option<string>, rounds: seq<Round>): Option<string>
    decreases |rounds|
  {
    if rounds == [] then file
    else Regenerate(Some(Generated(rounds[0].timestamp, rounds[0].columns, file)), rounds[1..])
  }

  /**
   However often the file is regenerated, from whatever registries, the manual section stays
   byte for byte what it was; a file without a marker gets the stub once and keeps that.
   */
  lemma {:induction false} ManualSectionNeverChanges(file: Option<string>, rounds: seq<Round>)
    requires rounds != []
    requires forall r :: r in rounds ==> '/' !in r.timestamp
    requires forall r :: r in rounds ==> forall i :: 0 <= i < |r.columns| ==>
             Printable(r.columns[i]) && NamesAreClean(r.columns[i])
    ensures ExtractManualSections(Regenerate(file, rounds)) == Kept(file)
    ensures ExtractManualSections(file) != "" ==>
              ExtractManualSections(Regenerate(file, rounds)) == ExtractManualSections(file)
    decreases |rounds|
  {
    var next := Generated(rounds[0].timestamp, rounds[0].columns, file);
    assert rounds[0] in rounds;
    GeneratedKeepsManualSection(rounds[0].timestamp, rounds[0].columns, file);
    KeptStartsWithMarker(file);
    if |rounds| > 1 {
      assert forall r :: r in rounds[1..] ==> r in rounds;
      ManualSectionNeverChanges(Some(next), rounds[1..]);
    } else {
      assert rounds[1..] == [];
    }
  }
}
