/** The line shapes that the OpenAPI reconciler recognises, and the operation a line belongs to. */
module SwaggerLines {
  import opened Common

  predicate IsLineTerminator(c: char) {
    c in {'\n', '\r', '\U{2028}', '\U{2029}'}
  }

  /** /^  (\/.*):$/ */
  function PathOf(line: string): Option<string> {
    if |line| >= 4 && line[..3] == "  /" && line[|line| - 1] == ':'
       && forall c | c in line[3..|line| - 1] :: !IsLineTerminator(c)
    then Some(line[2..|line| - 1]) else None
  }

  const VERBS: seq<string> := ["get", "post", "put", "patch", "delete"]

  function VerbAmong(line: string, verbs: seq<string>): Option<string>
    decreases |verbs|
  {
    if verbs == [] then None
    else if line == "    " + verbs[0] + ":" then Some(verbs[0])
    else VerbAmong(line, verbs[1..])
  }

  /** /^    (get|post|put|patch|delete):$/ */
  function VerbOf(line: string): Option<string> {
    VerbAmong(line, VERBS)
  }

  predicate IsWordChar(c: char) {
    'A' <= c <= 'Z' || 'a' <= c <= 'z' || '0' <= c <= '9' || c == '_'
  }

  /** /^      - ([A-Za-z0-9_]+): \[\]$/ */
  function RequirementOf(line: string): Option<string> {
    if |line| > 12 && line[..8] == "      - " && line[|line| - 4..] == ": []" && IsSchemeName(line[8..|line| - 4])
    then Some(line[8..|line| - 4]) else None
  }

  function Requirement(scheme: string): string {
    "      - " + scheme + ": []"
  }

  const SECURITY := "      security:"
  const NO_SECURITY := "      security: []"

  predicate IsSecurityLine(line: string) {
    line == SECURITY || line == NO_SECURITY
  }

  predicate IsSchemeName(scheme: string) {
    scheme != "" && forall i | 0 <= i < |scheme| :: IsWordChar(scheme[i])
  }

  lemma RequirementShape(scheme: string)
    requires IsSchemeName(scheme)
    ensures RequirementOf(Requirement(scheme)) == Some(scheme)
  {
    var line := Requirement(scheme);
    assert line[8..|line| - 4] == scheme;
  }

  lemma RequirementIsOwnShape(line: string)
    requires RequirementOf(line).Some?
    ensures line == Requirement(RequirementOf(line).value)
  {
    assert line == line[..8] + line[8..|line| - 4] + line[|line| - 4..];
  }

  predicate IsLowerWord(verb: string) {
    verb != "" && 'a' <= verb[0] <= 'z'
  }

  lemma {:induction false} VerbAmongShape(line: string, verbs: seq<string>)
    requires forall i | 0 <= i < |verbs| :: IsLowerWord(verbs[i])
    ensures VerbAmong(line, verbs).Some? ==>
              |line| > 5 && line[2] == ' ' && 'a' <= line[4] <= 'z' && line[|line| - 1] == ':'
    decreases |verbs|
  {
    if verbs != [] {
      VerbAmongShape(line, verbs[1..]);
    }
  }

  lemma VerbShape(line: string)
    ensures VerbOf(line).Some? ==> |line| > 5 && line[2] == ' ' && 'a' <= line[4] <= 'z' && line[|line| - 1] == ':'
  {
    VerbAmongShape(line, VERBS);
  }

  lemma PathShape(line: string)
    ensures PathOf(line).Some? ==> |line| > 3 && line[2] == '/'
  {
    if PathOf(line).Some? {
      assert line[..3][2] == '/';
    }
  }

  /** The line kinds do not overlap. */
  lemma ShapesAreDisjoint(line: string)
    ensures RequirementOf(line).Some? ==> PathOf(line).None? && VerbOf(line).None? && !IsSecurityLine(line)
    ensures IsSecurityLine(line) ==> PathOf(line).None? && VerbOf(line).None? && RequirementOf(line).None?
    ensures VerbOf(line).Some? ==> PathOf(line).None?
  {
    VerbShape(line);
    PathShape(line);
    if RequirementOf(line).Some? {
      assert line[..8][2] == ' ' && line[..8][4] == ' ' && line[..8][6] == '-';
    }
  }

  // ---- Requirement lines

  /** The schemes of the leading requirement lines. */
  function Run(lines: seq<string>): (schemes: seq<string>)
    ensures |schemes| <= |lines|
  {
    if lines == [] || RequirementOf(lines[0]).None? then [] else [RequirementOf(lines[0]).value] + Run(lines[1..])
  }

  function Requirements(schemes: seq<string>): seq<string> {
    if schemes == [] then [] else [Requirement(schemes[0])] + Requirements(schemes[1..])
  }

  lemma {:induction false} RequirementsLength(schemes: seq<string>)
    ensures |Requirements(schemes)| == |schemes|
  {
    if schemes != [] {
      RequirementsLength(schemes[1..]);
    }
  }

  lemma {:induction false} RunEnds(lines: seq<string>)
    ensures Run(lines[|Run(lines)|..]) == []
  {
    if Run(lines) != [] {
      RunEnds(lines[1..]);
      assert lines[1..][|Run(lines[1..])|..] == lines[|Run(lines)|..];
    }
  }

  lemma {:induction false} RunNames(lines: seq<string>)
    ensures forall i | 0 <= i < |Run(lines)| :: IsSchemeName(Run(lines)[i])
  {
    if Run(lines) != [] {
      RunNames(lines[1..]);
    }
  }

  /** What follows the leading requirement lines. */
  function AfterRun(lines: seq<string>): seq<string> {
    lines[|Run(lines)|..]
  }

  // ---- Indentation, as a YAML reader sees it

  /** The number of spaces a line starts with. */
  function Indent(line: string): (n: nat)
    ensures n <= |line| && (n < |line| ==> line[n] != ' ')
  {
    if line == "" || line[0] != ' ' then 0 else 1 + Indent(line[1..])
  }

  /** Blank lines and comments. */
  predicate IsSkipped(line: string) {
    Indent(line) == |line| || line[Indent(line)] == '#'
  }

  /** The first line that is neither blank nor a comment. */
  function FirstLine(lines: seq<string>): Option<string> {
    if lines == [] then None else if IsSkipped(lines[0]) then FirstLine(lines[1..]) else Some(lines[0])
  }

  /** An entry of a block sequence. */
  predicate IsItem(line: string) {
    var n := Indent(line);
    n < |line| && line[n] == '-' && (n + 1 == |line| || line[n + 1] == ' ')
  }

  /** The line belongs to the value of a key that stands at six spaces. */
  predicate Continues(line: string) {
    Indent(line) > 6 || (Indent(line) == 6 && IsItem(line))
  }

  /** A requirement without scopes, at whatever indentation. */
  function ItemOf(line: string): Option<(nat, string)> {
    var n := Indent(line);
    if |line| > n + 6 && line[n..n + 2] == "- " && line[|line| - 4..] == ": []" && IsSchemeName(line[n + 2..|line| - 4])
    then Some((n, line[n + 2..|line| - 4])) else None
  }

  /** What is still part of the value of a key at six spaces, once its leading requirement lines have been read. */
  datatype Below = Ends | Items(indent: nat, schemes: seq<string>) | Other

  function BelowOf(lines: seq<string>): Below {
    if lines == [] then Ends
    else if IsSkipped(lines[0]) then BelowOf(lines[1..])
    else if !Continues(lines[0]) then Ends
    else
      match (ItemOf(lines[0]), BelowOf(lines[1..]))
      case (Some((indent, scheme)), Ends) => Items(indent, [scheme])
      case (Some((indent, scheme)), Items(below, more)) =>
        if indent == below then Items(indent, [scheme] + more) else Other
      case _ => Other
  }

  lemma {:induction false} IndentIs(line: string, n: nat)
    requires n < |line| && line[n] != ' ' && forall i | 0 <= i < n :: line[i] == ' '
    ensures Indent(line) == n
  {
    if n > 0 {
      IndentIs(line[1..], n - 1);
    }
  }

  /** A security line ends whatever stands above it. */
  lemma SecurityLineEnds(line: string)
    requires IsSecurityLine(line)
    ensures !IsSkipped(line) && !Continues(line)
  {
    assert SECURITY[6] == 's' && NO_SECURITY[6] == 's';
    IndentIs(line, 6);
  }

  // ---- Operations

  /** Where the index of the closing brace is, from the start of s; |s| if there is none. */
  function CloseBrace(s: string): (n: nat)
    ensures n <= |s|
  {
    if s == "" || s[0] == '}' then 0 else 1 + CloseBrace(s[1..])
  }

  /** route.replace(/\{[^}]+\}/g, "{}") */
  function NormalizedRoute(route: string): string
    decreases |route|
  {
    if route == "" then ""
    else
      var n := CloseBrace(route[1..]);
      if route[0] == '{' && 0 < n < |route| - 1 then "{}" + NormalizedRoute(route[n + 2..])
      else [route[0]] + NormalizedRoute(route[1..])
  }

  function Key(verb: string, route: string): string {
    verb + ":" + NormalizedRoute(route)
  }

  /** The path and method whose block the scan is in. */
  datatype Place = Place(route: string, verb: string)

  const START := Place("", "")

  function Advance(at: Place, line: string): Place {
    var inPath := match PathOf(line) case Some(route) => Place(route, "") case None => at;
    match VerbOf(line)
    case Some(verb) => inPath.(verb := verb)
    case None => inPath
  }

  lemma StaysPut(line: string, at: Place)
    requires RequirementOf(line).Some? || IsSecurityLine(line)
    ensures Advance(at, line) == at
  {
    ShapesAreDisjoint(line);
  }

  function KeyAt(at: Place): string {
    Key(at.verb, at.route)
  }
}
