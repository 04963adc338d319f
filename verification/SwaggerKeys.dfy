/**
 * Which lines the fixers recognise and which operation a line belongs to, in the text of the file: routes that differ
 * only in the names of their parameters are one operation.
 */
module SwaggerKeys {
  import opened Common
  import opened SwaggerLines
  import S = SecurityFix
  import T = TenantHeaderFix

  // ---- Line shapes

  predicate EndsLine(c: char) {
    c == '\n' || c == '\r' || c == '\U{2028}' || c == '\U{2029}'
  }

  lemma PathOfIff(line: string, route: string)
    ensures PathOf(line) == Some(route) <==>
              && line == "  " + route + ":" && route != "" && route[0] == '/'
              && forall c | c in route :: !EndsLine(c)
  {
    if PathOf(line).Some? {
      PathParts(line);
    }
    if line == "  " + route + ":" && route != "" && route[0] == '/' {
      PathLine(line, route);
      forall c ensures EndsLine(c) <==> IsLineTerminator(c) {
      }
    }
  }

  lemma PathParts(line: string)
    requires |line| >= 4 && line[..3] == "  /" && line[|line| - 1] == ':'
    ensures line == "  " + line[2..|line| - 1] + ":" && line[2..|line| - 1] == "/" + line[3..|line| - 1]
  {
    var lead := line[..3];
    assert line[0] == lead[0] && line[1] == lead[1] && line[2] == lead[2];
  }

  lemma PathLine(line: string, route: string)
    requires line == "  " + route + ":" && route != "" && route[0] == '/'
    ensures line[2..|line| - 1] == route && |line| >= 4 && line[..3] == "  /" && line[|line| - 1] == ':'
    ensures line[3..|line| - 1] == route[1..] && forall c :: c in route <==> c == '/' || c in route[1..]
  {
    assert route == "/" + route[1..];
  }

  lemma VerbOfIff(line: string, verb: string)
    ensures VerbOf(line) == Some(verb) <==>
              line == "    " + verb + ":" && verb in {"get", "post", "put", "patch", "delete"}
  {
    VerbAmongIff(line, VERBS, verb);
  }

  lemma {:induction false} VerbAmongIff(line: string, verbs: seq<string>, verb: string)
    ensures VerbAmong(line, verbs) == Some(verb) <==> line == "    " + verb + ":" && verb in verbs
  {
    if verbs != [] {
      VerbAmongIff(line, verbs[1..], verb);
      if line == "    " + verbs[0] + ":" && line == "    " + verb + ":" {
        assert verb == line[4..|line| - 1] == verbs[0];
      }
      assert verbs == [verbs[0]] + verbs[1..];
    }
  }

  /** An ASCII letter or digit. */
  predicate IsAlphanumeric(c: char) {
    65 <= c as int <= 90 || 97 <= c as int <= 122 || 48 <= c as int <= 57
  }

  lemma RequirementOfIff(line: string, scheme: string)
    ensures RequirementOf(line) == Some(scheme) <==>
              && line == "      - " + scheme + ": []" && scheme != ""
              && forall c | c in scheme :: IsAlphanumeric(c) || c == '_'
  {
    assert forall c :: IsWordChar(c) <==> IsAlphanumeric(c) || c == '_';
    if RequirementOf(line).Some? {
      RequirementIsOwnShape(line);
    }
    if line == "      - " + scheme + ": []" && IsSchemeName(scheme) {
      RequirementShape(scheme);
    }
  }

  // ---- Routes

  lemma {:induction false} CloseBraceAt(name: string, rest: string)
    requires '}' !in name
    ensures CloseBrace(name + "}" + rest) == |name|
  {
    if name == "" {
      assert "" + "}" + rest == "}" + rest;
    } else {
      CloseBraceAt(name[1..], rest);
      assert (name + "}" + rest)[1..] == name[1..] + "}" + rest;
    }
  }

  /** Where a character stands first; |s| if it does not. */
  function Position(s: string, c: char): (n: nat)
    ensures n <= |s|
  {
    if s == "" || s[0] == c then 0 else 1 + Position(s[1..], c)
  }

  lemma {:induction false} PositionAt(lead: string, c: char, rest: string)
    requires c !in lead
    ensures Position(lead + [c] + rest, c) == |lead|
  {
    if lead == "" {
      assert lead + [c] + rest == [c] + rest;
    } else {
      PositionAt(lead[1..], c, rest);
      assert (lead + [c] + rest)[1..] == lead[1..] + [c] + rest;
    }
  }

  /** A text is cut in only one way at the first place of a character. */
  lemma FirstCut(lead: string, a: string, other: string, b: string, c: char)
    requires c !in lead && c !in other && lead + [c] + a == other + [c] + b
    ensures lead == other && a == b
  {
    PositionAt(lead, c, a);
    PositionAt(other, c, b);
    var x := lead + [c] + a;
    assert lead == x[..|lead|] == other && a == x[|lead| + 1..] == b;
  }

  /** The text behind a parameter. */
  lemma OneParameter(name: string, rest: string)
    requires name != "" && '}' !in name
    ensures NormalizedRoute("{" + name + "}" + rest) == "{}" + NormalizedRoute(rest)
  {
    var route := "{" + name + "}" + rest;
    assert route[1..] == name + "}" + rest;
    CloseBraceAt(name, rest);
    assert route[|name| + 2..] == rest;
  }

  lemma OneCharStays(c: char, rest: string)
    requires c != '{'
    ensures NormalizedRoute([c] + rest) == [c] + NormalizedRoute(rest)
  {
    assert ([c] + rest)[1..] == rest;
  }

  lemma {:induction false} LeadStays(lead: string, rest: string)
    requires '{' !in lead
    ensures NormalizedRoute(lead + rest) == lead + NormalizedRoute(rest)
  {
    if lead == "" {
      assert lead + rest == rest;
    } else {
      LeadStays(lead[1..], rest);
      OneCharStays(lead[0], lead[1..] + rest);
      FrontOf(lead, rest);
      FrontOf(lead, NormalizedRoute(rest));
    }
  }

  lemma FrontOf(lead: string, rest: string)
    requires lead != ""
    ensures lead + rest == [lead[0]] + (lead[1..] + rest)
  {
  }

  /** A parameter loses its name. */
  lemma ParameterLosesName(lead: string, name: string, rest: string)
    requires '{' !in lead && name != "" && '}' !in name
    ensures NormalizedRoute(lead + "{" + name + "}" + rest) == lead + "{}" + NormalizedRoute(rest)
  {
    assert lead + "{" + name + "}" + rest == lead + ("{" + name + "}" + rest);
    LeadStays(lead, "{" + name + "}" + rest);
    OneParameter(name, rest);
  }

  /** A route without parameters stays as it is. */
  lemma PlainRouteStays(route: string)
    requires '{' !in route
    ensures NormalizedRoute(route) == route
  {
    LeadStays(route, "");
    assert route + "" == route;
  }

  /** A route in its parts: each text with the parameter behind it, and the rest. */
  datatype Template = Template(parts: seq<(string, string)>, tail: string) {
    function Route(): string
      decreases |parts|
    {
      if parts == [] then tail else parts[0].0 + "{" + parts[0].1 + "}" + Template(parts[1..], tail).Route()
    }

    predicate IsPlain() {
      && '{' !in tail
      && forall i | 0 <= i < |parts| :: '{' !in parts[i].0 && parts[i].1 != "" && '}' !in parts[i].1
    }

    /** The texts between the parameters. */
    function Texts(): seq<string> {
      seq(|parts|, i requires 0 <= i < |parts| => parts[i].0) + [tail]
    }
  }

  /** Texts with `{}` between them. */
  function Braced(texts: seq<string>): string
    requires texts != []
  {
    if |texts| == 1 then texts[0] else texts[0] + "{}" + Braced(texts[1..])
  }

  lemma {:induction false} TemplateNormalizes(t: Template)
    requires t.IsPlain()
    ensures NormalizedRoute(t.Route()) == Braced(t.Texts())
    decreases |t.parts|
  {
    if t.parts == [] {
      PlainRouteStays(t.tail);
    } else {
      var rest := Template(t.parts[1..], t.tail);
      TemplateNormalizes(rest);
      ParameterLosesName(t.parts[0].0, t.parts[0].1, rest.Route());
      assert t.Texts()[1..] == rest.Texts();
    }
  }

  lemma NoBrace(text: string, lead: string, a: string)
    requires '{' !in text
    ensures text != lead + "{" + a
  {
    assert (lead + "{" + a)[|lead|] == '{';
  }

  lemma {:induction false} BracedInjective(xs: seq<string>, ys: seq<string>)
    requires xs != [] && ys != [] && (forall x | x in xs :: '{' !in x) && (forall y | y in ys :: '{' !in y)
    requires Braced(xs) == Braced(ys)
    ensures xs == ys
  {
    if |xs| == 1 && |ys| == 1 {
    } else if |xs| == 1 {
      BracedFront(ys);
      NoBrace(xs[0], ys[0], "}" + Braced(ys[1..]));
    } else if |ys| == 1 {
      BracedFront(xs);
      NoBrace(ys[0], xs[0], "}" + Braced(xs[1..]));
    } else {
      BracedFront(xs);
      BracedFront(ys);
      FirstCut(xs[0], "}" + Braced(xs[1..]), ys[0], "}" + Braced(ys[1..]), '{');
      assert ("}" + Braced(xs[1..]))[1..] == Braced(xs[1..]) && ("}" + Braced(ys[1..]))[1..] == Braced(ys[1..]);
      BracedInjective(xs[1..], ys[1..]);
      assert xs == [xs[0]] + xs[1..] && ys == [ys[0]] + ys[1..];
    }
  }

  lemma BracedFront(texts: seq<string>)
    requires |texts| > 1
    ensures Braced(texts) == texts[0] + "{" + ("}" + Braced(texts[1..]))
  {
    BraceParts(texts[0], Braced(texts[1..]));
  }

  lemma BraceParts(a: string, b: string)
    ensures a + "{}" + b == a + "{" + ("}" + b)
  {
    assert "{}" == "{" + "}";
  }

  /** Two operations have one key exactly when their methods agree and their routes do up to the parameter names. */
  lemma SameKeyIff(verb: string, a: Template, other: string, b: Template)
    requires ':' !in verb && ':' !in other && a.IsPlain() && b.IsPlain()
    ensures Key(verb, a.Route()) == Key(other, b.Route()) <==> verb == other && a.Texts() == b.Texts()
  {
    TemplateNormalizes(a);
    TemplateNormalizes(b);
    if Key(verb, a.Route()) == Key(other, b.Route()) {
      FirstCut(verb, Braced(a.Texts()), other, Braced(b.Texts()), ':');
      BracedInjective(a.Texts(), b.Texts());
    }
  }

  // ---- The operation of a line

  /** No path line from line j + 1 up to line i. */
  ghost predicate NoPathBetween(lines: seq<string>, j: nat, i: nat) {
    forall k | j < k < i && k < |lines| :: PathOf(lines[k]) == None
  }

  ghost predicate NoVerbBetween(lines: seq<string>, j: nat, i: nat) {
    forall k | j < k < i && k < |lines| :: VerbOf(lines[k]) == None
  }

  /** Where the scan stands after the first n lines. */
  function PlaceAfter(lines: seq<string>, n: nat): Place
    requires n <= |lines|
  {
    if n == 0 then START else Advance(PlaceAfter(lines, n - 1), lines[n - 1])
  }

  lemma {:induction false} RouteSticks(lines: seq<string>, j: nat, n: nat, route: string)
    requires j < n <= |lines| && PathOf(lines[j]) == Some(route) && NoPathBetween(lines, j, n)
    ensures PlaceAfter(lines, n).route == route
  {
    if n > j + 1 {
      RouteSticks(lines, j, n - 1, route);
    }
  }

  lemma {:induction false} VerbSticks(lines: seq<string>, j: nat, n: nat, verb: string)
    requires j < n <= |lines| && VerbOf(lines[j]) == Some(verb)
    requires NoVerbBetween(lines, j, n) && NoPathBetween(lines, j, n)
    ensures PlaceAfter(lines, n).verb == verb
  {
    if n > j + 1 {
      VerbSticks(lines, j, n - 1, verb);
    }
  }

  /** Below a path and a method line, and no other of either kind in between, a line belongs to that operation. */
  lemma OperationOfLine(lines: seq<string>, p: nat, v: nat, n: nat, route: string, verb: string)
    requires p < v < n <= |lines| && PathOf(lines[p]) == Some(route) && VerbOf(lines[v]) == Some(verb)
    requires NoPathBetween(lines, p, n) && NoVerbBetween(lines, v, n)
    ensures KeyAt(PlaceAfter(lines, n)) == verb + ":" + NormalizedRoute(route)
  {
    RouteSticks(lines, p, n, route);
    VerbSticks(lines, v, n, verb);
  }

  /** Directly below a path, it belongs to no method. */
  lemma {:induction false} NoOperationYet(lines: seq<string>, p: nat, n: nat, route: string)
    requires p < n <= |lines| && PathOf(lines[p]) == Some(route)
    requires NoPathBetween(lines, p, n) && NoVerbBetween(lines, p, n)
    ensures KeyAt(PlaceAfter(lines, n)) == ":" + NormalizedRoute(route)
  {
    RouteSticks(lines, p, n, route);
    NoVerbYet(lines, p, n);
  }

  lemma {:induction false} NoVerbYet(lines: seq<string>, p: nat, n: nat)
    requires p < n <= |lines| && PathOf(lines[p]).Some? && NoPathBetween(lines, p, n) && NoVerbBetween(lines, p, n)
    ensures PlaceAfter(lines, n).verb == ""
  {
    if n > p + 1 {
      NoVerbYet(lines, p, n - 1);
    } else {
      PathShape(lines[p]);
      VerbShape(lines[p]);
    }
  }

  /** Every security line opens a block of the operation it stands in, whatever route and method that is. */
  lemma SecurityLineIsBlock(lines: seq<string>, i: nat)
    requires i < |lines| && IsSecurityLine(lines[i])
    ensures S.Headed(lines[i], KeyAt(PlaceAfter(lines, i + 1)), lines[i + 1..]) in S.Blocks(lines, START)
  {
    assert lines[0..] == lines;
    BlocksFrom(lines, 0, i);
  }

  lemma {:induction false} BlocksFrom(lines: seq<string>, n: nat, i: nat)
    requires n <= i < |lines| && IsSecurityLine(lines[i])
    ensures S.Headed(lines[i], KeyAt(PlaceAfter(lines, i + 1)), lines[i + 1..])
              in S.Blocks(lines[n..], PlaceAfter(lines, n))
    decreases i - n
  {
    assert lines[n..] == [lines[n]] + lines[n + 1..];
    S.BlocksCons(lines[n], lines[n + 1..], PlaceAfter(lines, n));
    if n < i {
      BlocksFrom(lines, n + 1, i);
    }
  }

  // ---- What the security fixer writes

  /** The line of one expected scheme. */
  function IfWanted(wanted: set<string>, scheme: string): seq<string> {
    if scheme in wanted then ["      - " + scheme + ": []"] else []
  }

  /** The lines of the schemes that no controller guard stands for. */
  function Others(schemes: seq<string>): seq<string> {
    if schemes == [] then []
    else (if schemes[0] in {"CookieAuth", "BearerAuth", "InternalServiceAuth", "WebhookHmacAuth"} then []
          else ["      - " + schemes[0] + ": []"]) + Others(schemes[1..])
  }

  lemma OrderedFirst(wanted: set<string>, scheme: string, rest: seq<string>)
    ensures Requirements(S.Ordered(wanted, [scheme] + rest)) ==
              IfWanted(wanted, scheme) + Requirements(S.Ordered(wanted, rest))
  {
    assert ([scheme] + rest)[1..] == rest;
    if scheme in wanted {
      assert ([scheme] + S.Ordered(wanted, rest))[1..] == S.Ordered(wanted, rest);
    }
  }

  lemma OrderedFour(wanted: set<string>, a: string, b: string, c: string, d: string)
    ensures Requirements(S.Ordered(wanted, [a, b, c, d])) ==
              IfWanted(wanted, a) + (IfWanted(wanted, b) + (IfWanted(wanted, c) + IfWanted(wanted, d)))
  {
    assert [a, b, c, d] == [a] + [b, c, d] && [b, c, d] == [b] + [c, d] && [c, d] == [c] + [d] && [d] == [d] + [];
    OrderedFirst(wanted, a, [b, c, d]);
    OrderedFirst(wanted, b, [c, d]);
    OrderedFirst(wanted, c, [d]);
    OrderedFirst(wanted, d, []);
    assert IfWanted(wanted, d) + [] == IfWanted(wanted, d);
  }

  lemma {:induction false} OthersAreNonPrimary(schemes: seq<string>)
    ensures Requirements(S.NonPrimary(schemes)) == Others(schemes)
    ensures S.NonPrimary(schemes) == [] <==> Others(schemes) == []
  {
    if schemes != [] {
      OthersAreNonPrimary(schemes[1..]);
      if !S.IsPrimary(schemes[0]) {
        assert ([schemes[0]] + S.NonPrimary(schemes[1..]))[1..] == S.NonPrimary(schemes[1..]);
      }
    }
  }

  /** The lines put in place of a block: the expected schemes in one fixed order, or the other schemes it had, or
    * none. */
  lemma EmittedBlock(wanted: set<string>, schemes: seq<string>)
    requires forall s | s in wanted :: S.IsPrimary(s)
    ensures wanted != {} ==>
              S.BlockLines(S.Reconciled(wanted, schemes)) ==
                ["      security:"] + (IfWanted(wanted, "CookieAuth") + (IfWanted(wanted, "BearerAuth")
                + (IfWanted(wanted, "InternalServiceAuth") + IfWanted(wanted, "WebhookHmacAuth"))))
    ensures wanted == {} ==>
              S.BlockLines(S.Reconciled(wanted, schemes)) ==
                if Others(schemes) == [] then ["      security: []"] else ["      security:"] + Others(schemes)
  {
    S.OrderedIsExact(wanted);
    OrderedFour(wanted, "CookieAuth", "BearerAuth", "InternalServiceAuth", "WebhookHmacAuth");
    OthersAreNonPrimary(schemes);
  }

  // ---- What the tenant header fixer looks for

  /** What a scan that stands at this route sees in a line. */
  function MarkAlone(line: string, route: string): T.Mark {
    T.Marks([line], route)[0]
  }

  lemma MarkFirst(line: string, rest: seq<string>, route: string)
    ensures T.Marks([line] + rest, route)[0] == MarkAlone(line, route)
  {
    assert ([line] + rest)[0] == line;
  }

  lemma MarkBehind(line: string, rest: seq<string>, route: string, k: nat)
    requires k < |rest|
    ensures T.Marks([line] + rest, route)[k + 1] == T.Marks(rest, T.RouteAfter(route, line))[k]
  {
    assert ([line] + rest)[1..] == rest;
  }

  lemma {:induction false} MarkFrom(lines: seq<string>, n: nat, i: nat)
    requires n <= i < |lines|
    ensures T.Marks(lines[n..], PlaceAfter(lines, n).route)[i - n] == MarkAlone(lines[i], PlaceAfter(lines, i).route)
    decreases i - n
  {
    assert lines[n..] == [lines[n]] + lines[n + 1..];
    if n < i {
      RouteFollows(lines, n);
      MarkFrom(lines, n + 1, i);
      MarkBehind(lines[n], lines[n + 1..], PlaceAfter(lines, n).route, i - n - 1);
    } else {
      MarkFirst(lines[n], lines[n + 1..], PlaceAfter(lines, n).route);
    }
  }

  /** Both fixers follow the path lines in the same way. */
  lemma RouteFollows(lines: seq<string>, n: nat)
    requires n < |lines|
    ensures PlaceAfter(lines, n + 1).route == T.RouteAfter(PlaceAfter(lines, n).route, lines[n])
  {
  }

  /** A method line starts the block of its operation; that, a path line and `components:` end the one before. */
  lemma OperationOfMethodLine(lines: seq<string>, p: nat, i: nat, route: string, verb: string)
    requires p < i < |lines| && PathOf(lines[p]) == Some(route) && VerbOf(lines[i]) == Some(verb)
    requires NoPathBetween(lines, p, i)
    ensures T.Marks(lines, "")[i] == T.Mark(true, Some(verb + ":" + NormalizedRoute(route)))
  {
    RouteSticks(lines, p, i, route);
    MarkOfLine(lines, i, route);
    ShapesAreDisjoint(lines[i]);
  }

  lemma OtherLines(lines: seq<string>, i: nat)
    requires i < |lines| && VerbOf(lines[i]) == None
    ensures T.Marks(lines, "")[i] == T.Mark(PathOf(lines[i]).Some? || lines[i] == "components:", None)
  {
    MarkOfLine(lines, i, PlaceAfter(lines, i).route);
    OtherLine(lines[i], PlaceAfter(lines, i).route);
  }

  lemma MarkOfLine(lines: seq<string>, i: nat, route: string)
    requires i < |lines| && route == PlaceAfter(lines, i).route
    ensures T.Marks(lines, "")[i] == T.Mark(T.IsStop(lines[i]), T.OperationAt(lines[i], route))
  {
    assert lines[0..] == lines;
    MarkFrom(lines, 0, i);
  }

  lemma OtherLine(line: string, route: string)
    requires VerbOf(line) == None
    ensures T.OperationAt(line, route) == None
    ensures T.IsStop(line) <==> PathOf(line).Some? || line == "components:"
  {
  }

  /** What happens to an operation: nothing, unless it reads the header and does not document it. */
  lemma SelectedOperation(segment: T.Segment, headers: T.Headers)
    ensures T.Fixed(segment, headers).key == segment.key && T.Fixed(segment, headers).head == segment.head
    ensures T.Fixed(segment, headers).body ==
              if segment.key.Some? && segment.key.value in headers.expected && segment.key.value !in headers.documented
              then T.Referenced(segment.body, headers) else segment.body
  {
  }

  /** The two lines of the tenant header fixer. */
  lemma InsertedLines(parameters: string, reference: string)
    requires parameters == "      parameters:"
    requires reference == "      - $ref: " + "'#/components/parameters/TenantIdHeader'"
    ensures T.PARAMETERS == parameters && T.REFERENCE == reference
  {
  }
}
