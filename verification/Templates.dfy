/**
 * The template language of action params (domain/templates.ts): where the
 * placeholders of a text are, what a path means in a scope, and how a nested
 * value is resolved.
 */
module Templates {
  import opened Base

  predicate IsPathChar(c: char) {
    'a' <= c <= 'z' || 'A' <= c <= 'Z' || '0' <= c <= '9' || c == '_' || c == '.' || c == '-'
  }

  /** The characters `\s` matches. */
  predicate IsSpace(c: char) {
    c == ' ' || '\U{0009}' <= c <= '\U{000D}' || c == '\U{00A0}' || c == '\U{1680}' || '\U{2000}' <= c <= '\U{200A}' ||
    c == '\U{2028}' || c == '\U{2029}' || c == '\U{202F}' || c == '\U{205F}' || c == '\U{3000}' || c == '\U{FEFF}'
  }

  function SkipSpace(text: string, from: nat): (end: nat)
    requires from <= |text|
    ensures from <= end <= |text|
    decreases |text| - from
  {
    if from < |text| && IsSpace(text[from]) then SkipSpace(text, from + 1) else from
  }

  function SkipPath(text: string, from: nat): (end: nat)
    requires from <= |text|
    ensures from <= end <= |text|
    ensures forall k :: from <= k < end ==> IsPathChar(text[k])
    decreases |text| - from
  {
    if from < |text| && IsPathChar(text[from]) then SkipPath(text, from + 1) else from
  }

  predicate Has(text: string, at: nat, mark: string) {
    at + |mark| <= |text| && text[at..at + |mark|] == mark
  }

  /** A placeholder found in a text: the path it names and the index after it. */
  datatype Match = Match(path: string, end: nat)

  /**
   * The placeholder starting exactly at `at`. Spaces and path characters are
   * disjoint, so the greedy scan is the only way the expression can match.
   */
  function MatchAt(text: string, at: nat): (m: Option<Match>)
    ensures m.Some? ==> at < m.value.end <= |text| && m.value.path != ""
    ensures m.Some? ==> forall k :: 0 <= k < |m.value.path| ==> IsPathChar(m.value.path[k])
  {
    if !Has(text, at, "{{") then None else
      var start := SkipSpace(text, at + 2);
      var stop := SkipPath(text, start);
      var close := SkipSpace(text, stop);
      if start == stop || !Has(text, close, "}}") then None
      else Some(Match(text[start..stop], close + 2))
  }

  datatype Piece = Char(c: char) | Ref(path: string)

  /** The text from `at` on, split into plain characters and placeholders, leftmost match first. */
  function PiecesFrom(text: string, at: nat): seq<Piece>
    requires at <= |text|
    decreases |text| - at
  {
    if at == |text| then [] else
      match MatchAt(text, at)
      case Some(m) => [Ref(m.path)] + PiecesFrom(text, m.end)
      case None => [Char(text[at])] + PiecesFrom(text, at + 1)
  }

  function Pieces(text: string): seq<Piece> { PiecesFrom(text, 0) }

  /** The path of a text that is exactly one placeholder. */
  function SinglePath(text: string): Option<string> {
    match MatchAt(text, 0)
    case Some(m) => if m.end == |text| then Some(m.path) else None
    case None => None
  }

  /** Every path used anywhere inside a value. */
  function TemplatePaths(value: Json): set<string> {
    match value
    case Str(text) => set i | 0 <= i < |Pieces(text)| && Pieces(text)[i].Ref? :: Pieces(text)[i].path
    case Arr(items) => set i, p | 0 <= i < |items| && p in TemplatePaths(items[i]) :: p
    case Obj(fields) => set k, p | k in fields && p in TemplatePaths(fields[k]) :: p
    case _ => {}
  }

  function Split(path: string): (segments: seq<string>)
    ensures segments != []
  {
    if path == "" then [""]
    else
      var rest := Split(path[1..]);
      if path[0] == '.' then [""] + rest else [[path[0]] + rest[0]] + rest[1..]
  }

  /** The second segment of a path, empty where there is none. */
  function SecondSegment(path: string): string {
    var segments := Split(path);
    if |segments| > 1 then segments[1] else ""
  }

  /** Keys of other actions named by `actions.<key>…` paths. */
  function ReferencedKeys(value: Json): set<string> {
    set p | p in TemplatePaths(value) && "actions." <= p && SecondSegment(p) != "" :: SecondSegment(p)
  }

  function IndexNamed(items: seq<Json>, segment: string, from: nat): (i: Option<nat>)
    requires from <= |items|
    ensures i.Some? ==> from <= i.value < |items| && Decimal(i.value) == segment
    ensures i.None? ==> forall k :: from <= k < |items| ==> Decimal(k) != segment
    decreases |items| - from
  {
    if from == |items| then None
    else if Decimal(from) == segment then Some(from)
    else IndexNamed(items, segment, from + 1)
  }

  /** One property access; `None` where the source throws. */
  function Member(value: Json, segment: string): Option<Json> {
    match value
    case Obj(fields) => if segment in fields then Some(fields[segment]) else None
    case Arr(items) =>
      if segment == "length" then Some(Num(|items| as real)) else
        var i := IndexNamed(items, segment, 0);
        if i.Some? then Some(items[i.value]) else None
    case _ => None
  }

  function Walk(value: Json, segments: seq<string>): Option<Json>
    decreases |segments|
  {
    if segments == [] then Some(value) else
      match Member(value, segments[0])
      case None => None
      case Some(next) => Walk(next, segments[1..])
  }

  function Lookup(scope: Json, path: string): Option<Json> { Walk(scope, Split(path)) }

  /** The loop of `lookup`. */
  method LookupLoop(scope: Json, path: string) returns (r: Option<Json>)
    ensures r == Lookup(scope, path)
  {
    var current := scope;
    var segments := Split(path);
    var k := 0;
    while k < |segments|
      invariant 0 <= k <= |segments|
      invariant Walk(current, segments[k..]) == Lookup(scope, path)
    {
      var next := Member(current, segments[k]);
      if next.None? {
        return None;
      }
      assert segments[k..][1..] == segments[k + 1..];
      current := next.value;
      k := k + 1;
    }
    return Some(current);
  }

  function Stringify(render: Json -> string, value: Json): string {
    if value.Str? then value.s else render(value)
  }

  predicate Resolvable(pieces: seq<Piece>, scope: Json) {
    forall i :: 0 <= i < |pieces| && pieces[i].Ref? ==> Lookup(scope, pieces[i].path).Some?
  }

  function Interpolate(pieces: seq<Piece>, scope: Json, render: Json -> string): string
    requires Resolvable(pieces, scope)
  {
    if pieces == [] then "" else
      (match pieces[0]
       case Char(c) => [c]
       case Ref(path) => Stringify(render, Lookup(scope, path).value)) +
      Interpolate(pieces[1..], scope, render)
  }

  /** `resolveTemplates`; `None` stands for a thrown TemplateError. */
  function Resolve(value: Json, scope: Json, render: Json -> string): Option<Json>
    decreases value, 1
  {
    match value
    case Str(text) =>
      var single := SinglePath(text);
      if single.Some? then Lookup(scope, single.value)
      else if Resolvable(Pieces(text), scope) then Some(Str(Interpolate(Pieces(text), scope, render)))
      else None
    case Arr(items) =>
      var r := ResolveItems(items, scope, render);
      if r.Some? then Some(Arr(r.value)) else None
    case Obj(fields) =>
      var r := ResolveFields(fields, scope, render);
      if r.Some? then Some(Obj(r.value)) else None
    case _ => Some(value)
  }

  function ResolveItems(items: seq<Json>, scope: Json, render: Json -> string): (r: Option<seq<Json>>)
    ensures r.Some? <==> forall i :: 0 <= i < |items| ==> Resolve(items[i], scope, render).Some?
    ensures r.Some? ==> |r.value| == |items| && forall i :: 0 <= i < |items| ==> Resolve(items[i], scope, render) == Some(r.value[i])
    decreases Arr(items), 0
  {
    if forall i | 0 <= i < |items| :: Resolve(items[i], scope, render).Some?
    then Some(seq(|items|, i requires 0 <= i < |items| => Resolve(items[i], scope, render).value))
    else None
  }

  function ResolveFields(fields: map<string, Json>, scope: Json, render: Json -> string): (r: Option<map<string, Json>>)
    ensures r.Some? <==> forall k :: k in fields ==> Resolve(fields[k], scope, render).Some?
    ensures r.Some? ==> r.value.Keys == fields.Keys && forall k :: k in fields ==> Resolve(fields[k], scope, render) == Some(r.value[k])
    decreases Obj(fields), 0
  {
    if forall k | k in fields :: Resolve(fields[k], scope, render).Some?
    then Some(map k | k in fields :: Resolve(fields[k], scope, render).value)
    else None
  }

  // ------------------------------------------------------------- properties

  lemma SingleIsOnlyPiece(text: string)
    ensures SinglePath(text).Some? ==> Pieces(text) == [Ref(SinglePath(text).value)]
  {
    if SinglePath(text).Some? {
      assert PiecesFrom(text, |text|) == [];
    }
  }

  lemma PathsOfText(text: string, p: string)
    ensures p in TemplatePaths(Str(text)) <==> exists i :: 0 <= i < |Pieces(text)| && Pieces(text)[i] == Ref(p)
  {
    if p in TemplatePaths(Str(text)) {
      var i :| 0 <= i < |Pieces(text)| && Pieces(text)[i].Ref? && Pieces(text)[i].path == p;
      assert Pieces(text)[i] == Ref(p);
    }
  }

  /** Resolving succeeds exactly when every path the value uses can be looked up. */
  lemma {:induction false} ResolveSucceedsIff(value: Json, scope: Json, render: Json -> string)
    ensures Resolve(value, scope, render).Some? <==> forall p :: p in TemplatePaths(value) ==> Lookup(scope, p).Some?
  {
    hide ResolveItems, ResolveFields;
    match value
    case Str(text) =>
      SingleIsOnlyPiece(text);
      var pieces := Pieces(text);
      forall i | 0 <= i < |pieces| && pieces[i].Ref? ensures pieces[i].path in TemplatePaths(value) {}
      if SinglePath(text).Some? {
        assert pieces[0] == Ref(SinglePath(text).value);
        assert TemplatePaths(value) == {SinglePath(text).value};
      }
    case Arr(items) =>
      forall i | 0 <= i < |items| { ResolveSucceedsIff(items[i], scope, render); }
      assert forall i, p :: 0 <= i < |items| && p in TemplatePaths(items[i]) ==> p in TemplatePaths(value);
    case Obj(fields) =>
      forall k | k in fields { ResolveSucceedsIff(fields[k], scope, render); }
      assert forall k, p :: k in fields && p in TemplatePaths(fields[k]) ==> p in TemplatePaths(value);
    case _ =>
  }

  lemma InterpolateAgrees(pieces: seq<Piece>, scope: Json, scope': Json, render: Json -> string)
    requires forall i :: 0 <= i < |pieces| && pieces[i].Ref? ==> Lookup(scope, pieces[i].path) == Lookup(scope', pieces[i].path)
    requires Resolvable(pieces, scope)
    ensures Resolvable(pieces, scope') && Interpolate(pieces, scope, render) == Interpolate(pieces, scope', render)
  {
    if pieces != [] {
      InterpolateAgrees(pieces[1..], scope, scope', render);
    }
  }

  lemma ItemsAgree(items: seq<Json>, scope: Json, scope': Json, render: Json -> string)
    requires forall i :: 0 <= i < |items| ==> Resolve(items[i], scope, render) == Resolve(items[i], scope', render)
    ensures Resolve(Arr(items), scope, render) == Resolve(Arr(items), scope', render)
  {
    hide ResolveItems;
    var r, r' := ResolveItems(items, scope, render), ResolveItems(items, scope', render);
    if r.Some? { assert r.value == r'.value; }
  }

  lemma FieldsAgree(fields: map<string, Json>, scope: Json, scope': Json, render: Json -> string)
    requires forall k :: k in fields ==> Resolve(fields[k], scope, render) == Resolve(fields[k], scope', render)
    ensures Resolve(Obj(fields), scope, render) == Resolve(Obj(fields), scope', render)
  {
    hide ResolveFields;
    var r, r' := ResolveFields(fields, scope, render), ResolveFields(fields, scope', render);
    if r.Some? {
      forall k | k in fields ensures r.value[k] == r'.value[k] {
        assert Resolve(fields[k], scope, render) == Resolve(fields[k], scope', render);
      }
      assert r.value == r'.value;
    }
  }

  lemma TextAgrees(text: string, scope: Json, scope': Json, render: Json -> string)
    requires forall p :: p in TemplatePaths(Str(text)) ==> Lookup(scope, p) == Lookup(scope', p)
    ensures Resolve(Str(text), scope, render) == Resolve(Str(text), scope', render)
  {
    SingleIsOnlyPiece(text);
    var pieces := Pieces(text);
    forall i | 0 <= i < |pieces| && pieces[i].Ref? ensures pieces[i].path in TemplatePaths(Str(text)) {}
    if SinglePath(text).Some? {
      assert pieces[0].path in TemplatePaths(Str(text));
    } else if Resolvable(pieces, scope) {
      InterpolateAgrees(pieces, scope, scope', render);
    }
  }

  /** Scopes that agree on the used paths resolve a value to the same result. */
  lemma {:induction false} ResolveDependsOnPathsOnly(value: Json, scope: Json, scope': Json, render: Json -> string)
    requires forall p :: p in TemplatePaths(value) ==> Lookup(scope, p) == Lookup(scope', p)
    ensures Resolve(value, scope, render) == Resolve(value, scope', render)
  {
    hide ResolveItems, ResolveFields;
    match value
    case Str(text) => TextAgrees(text, scope, scope', render);
    case Arr(items) =>
      forall i | 0 <= i < |items|
        ensures Resolve(items[i], scope, render) == Resolve(items[i], scope', render)
      {
        assert forall p :: p in TemplatePaths(items[i]) ==> p in TemplatePaths(value);
        ResolveDependsOnPathsOnly(items[i], scope, scope', render);
      }
      ItemsAgree(items, scope, scope', render);
    case Obj(fields) =>
      forall k | k in fields
        ensures Resolve(fields[k], scope, render) == Resolve(fields[k], scope', render)
      {
        assert forall p :: p in TemplatePaths(fields[k]) ==> p in TemplatePaths(value);
        ResolveDependsOnPathsOnly(fields[k], scope, scope', render);
      }
      FieldsAgree(fields, scope, scope', render);
    case _ =>
  }

  lemma {:induction false} PlainTextInterpolates(text: string, at: nat, scope: Json, render: Json -> string)
    requires at <= |text|
    requires forall i :: 0 <= i < |PiecesFrom(text, at)| ==> PiecesFrom(text, at)[i].Char?
    ensures Interpolate(PiecesFrom(text, at), scope, render) == text[at..]
    decreases |text| - at
  {
    var pieces := PiecesFrom(text, at);
    if at < |text| {
      assert pieces[0].Char?;
      assert pieces[1..] == PiecesFrom(text, at + 1);
      assert forall i {:trigger pieces[1..][i]} :: 0 <= i < |pieces[1..]| ==> pieces[1..][i] == pieces[i + 1];
      PlainTextInterpolates(text, at + 1, scope, render);
    }
  }

  /** A value without placeholders is left as it is. */
  lemma {:induction false} ResolveWithoutPaths(value: Json, scope: Json, render: Json -> string)
    requires TemplatePaths(value) == {}
    ensures Resolve(value, scope, render) == Some(value)
  {
    hide ResolveItems, ResolveFields;
    match value
    case Str(text) =>
      SingleIsOnlyPiece(text);
      var pieces := Pieces(text);
      assert forall i :: 0 <= i < |pieces| && pieces[i].Ref? ==> pieces[i].path in TemplatePaths(value);
      PlainTextInterpolates(text, 0, scope, render);
    case Arr(items) =>
      assert forall i, p :: 0 <= i < |items| && p in TemplatePaths(items[i]) ==> p in TemplatePaths(value);
      forall i | 0 <= i < |items| ensures Resolve(items[i], scope, render) == Some(items[i]) {
        ResolveWithoutPaths(items[i], scope, render);
      }
      assert ResolveItems(items, scope, render).value == items;
    case Obj(fields) =>
      assert forall k, p :: k in fields && p in TemplatePaths(fields[k]) ==> p in TemplatePaths(value);
      forall k | k in fields ensures Resolve(fields[k], scope, render) == Some(fields[k]) {
        ResolveWithoutPaths(fields[k], scope, render);
      }
      assert ResolveFields(fields, scope, render).value == fields;
    case _ =>
  }

  // ------------------------------------------------------------- reading a written placeholder

  lemma {:induction false} SkipsPathChars(text: string, from: nat, stop: nat)
    requires from <= stop <= |text| && (forall k :: from <= k < stop ==> IsPathChar(text[k])) && (stop < |text| ==> !IsPathChar(text[stop]))
    ensures SkipPath(text, from) == stop
    decreases stop - from
  {
    if from < stop { SkipsPathChars(text, from + 1, stop); }
  }

  /** A path in double braces is one placeholder for that path. */
  lemma PlaceholderPath(path: string)
    requires path != "" && forall k :: 0 <= k < |path| ==> IsPathChar(path[k])
    ensures SinglePath("{{" + path + "}}") == Some(path)
  {
    var text, stop := "{{" + path + "}}", 2 + |path|;
    assert text[0..2] == "{{" && text[2..stop] == path && text[stop..stop + 2] == "}}";
    assert forall k :: 2 <= k < stop ==> text[k] == path[k - 2];
    SkipsPathChars(text, 2, stop);
    assert SkipSpace(text, 2) == 2 && SkipSpace(text, stop) == stop;
  }

  lemma {:induction false} SplitPlain(segment: string)
    requires '.' !in segment
    ensures Split(segment) == [segment]
  {
    if segment != "" {
      assert forall c :: c in segment[1..] ==> c in segment;
      SplitPlain(segment[1..]);
      assert [segment[0]] + segment[1..] == segment;
    }
  }

  lemma {:induction false} SplitAtDot(segment: string, rest: string)
    requires '.' !in segment
    ensures Split(segment + "." + rest) == [segment] + Split(rest)
  {
    var path := segment + "." + rest;
    if segment == "" {
      assert path[1..] == rest;
    } else {
      assert forall c :: c in segment[1..] ==> c in segment;
      SplitAtDot(segment[1..], rest);
      assert path[1..] == segment[1..] + "." + rest && path[0] == segment[0] != '.';
      assert ([segment[1..]] + Split(rest))[1..] == Split(rest);
      assert [segment[0]] + segment[1..] == segment;
    }
  }
}
