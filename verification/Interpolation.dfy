/**
 * What a template text becomes (domain/templates.ts): a text is written from plain
 * stretches and paths in double braces, and resolving it replaces each path by the text
 * of the value it names. Every text is written so in one way that matters.
 */
module Interpolation {
  import opened Base
  import opened Templates

  /** A stretch of plain text, or a path in double braces with white space around it. */
  datatype Part = Plain(text: string) | Hole(lead: string, path: string, trail: string)

  predicate Blank(s: string) { forall k :: 0 <= k < |s| ==> IsSpace(s[k]) }

  predicate IsPath(s: string) { s != "" && forall k :: 0 <= k < |s| ==> IsPathChar(s[k]) }

  predicate HoleOk(part: Part) { part.Hole? && Blank(part.lead) && IsPath(part.path) && Blank(part.trail) }

  function WrittenPart(part: Part): string {
    match part
    case Plain(text) => text
    case Hole(lead, path, trail) => "{{" + lead + path + trail + "}}"
  }

  function Written(parts: seq<Part>): string {
    if parts == [] then "" else WrittenPart(parts[0]) + Written(parts[1..])
  }

  /** A well-formed placeholder begins at `at`. */
  ghost predicate Begins(text: string, at: nat) {
    exists hole: Part, rest: string :: HoleOk(hole) && at <= |text| && text[at..] == WrittenPart(hole) + rest
  }

  /** Holes are well formed, and plain stretches contain the beginning of no placeholder. */
  ghost predicate PartsOk(parts: seq<Part>) {
    parts != [] ==>
      (parts[0].Hole? ==> HoleOk(parts[0])) &&
      (parts[0].Plain? ==> forall k :: 0 <= k < |parts[0].text| ==> !Begins(Written(parts), k)) &&
      PartsOk(parts[1..])
  }

  /** The one path of a text that is nothing but a placeholder. */
  function Lone(parts: seq<Part>): Option<string> {
    if parts == [] then None
    else if parts[0].Hole? then if Written(parts[1..]) == "" then Some(parts[0].path) else None
    else if parts[0].text == "" then Lone(parts[1..])
    else None
  }

  /** The text with every path replaced: a text by itself, any other value by its rendering. */
  function Filled(parts: seq<Part>, scope: Json, render: Json -> string): Option<string> {
    if parts == [] then Some("") else
      match Filled(parts[1..], scope, render)
      case None => None
      case Some(rest) =>
        match parts[0]
        case Plain(text) => Some(text + rest)
        case Hole(_, path, _) =>
          match Lookup(scope, path)
          case None => None
          case Some(Str(s)) => Some(s + rest)
          case Some(value) => Some(render(value) + rest)
  }

  // ---------------------------------------------------------------- the scan finds exactly the placeholders

  lemma {:induction false} SpaceScanned(text: string, from: nat)
    requires from <= |text|
    ensures var end := SkipSpace(text, from); (forall k :: from <= k < end ==> IsSpace(text[k])) && (end < |text| ==> !IsSpace(text[end]))
    decreases |text| - from
  {
    if from < |text| && IsSpace(text[from]) { SpaceScanned(text, from + 1); }
  }

  lemma {:induction false} SkipsSpaces(text: string, from: nat, stop: nat)
    requires from <= stop <= |text| && (forall k :: from <= k < stop ==> IsSpace(text[k])) && (stop < |text| ==> !IsSpace(text[stop]))
    ensures SkipSpace(text, from) == stop
    decreases stop - from
  {
    if from < stop { SkipsSpaces(text, from + 1, stop); }
  }

  lemma CharsApart(c: char)
    ensures IsPathChar(c) ==> !IsSpace(c) && c != '}'
    ensures IsSpace(c) ==> c != '}'
  {
  }

  /** What stands at the front of a text's tail, and what follows it. */
  lemma Peel(text: string, at: nat, front: string, rest: string)
    requires at <= |text| && text[at..] == front + rest
    ensures at + |front| <= |text| && text[at..at + |front|] == front && text[at + |front|..] == rest
  {
    var tail := text[at..];
    assert text[at..at + |front|] == tail[..|front|] && text[at + |front|..] == tail[|front|..];
  }

  lemma Reassociated(a: string, b: string, c: string, d: string, e: string, f: string)
    ensures (a + b + c + d + e) + f == a + (b + (c + (d + (e + f))))
  {
    assert (a + b + c + d + e) + f == a + b + c + d + (e + f);
    assert a + b + c + d + (e + f) == a + b + c + (d + (e + f));
    assert a + b + c + (d + (e + f)) == a + b + (c + (d + (e + f)));
  }

  /** The five stretches of a written placeholder, by index. */
  predicate LaidOut(text: string, at: nat, hole: Part)
    requires hole.Hole?
  {
    var start := at + 2 + |hole.lead|;
    var stop := start + |hole.path|;
    var close := stop + |hole.trail|;
    close + 2 <= |text| && text[at..at + 2] == "{{" && text[at + 2..start] == hole.lead && text[start..stop] == hole.path &&
    text[stop..close] == hole.trail && text[close..close + 2] == "}}"
  }

  lemma WrittenIsLaidOut(text: string, at: nat, hole: Part, rest: string)
    requires hole.Hole? && at <= |text| && text[at..] == WrittenPart(hole) + rest
    ensures LaidOut(text, at, hole)
  {
    Reassociated("{{", hole.lead, hole.path, hole.trail, "}}", rest);
    var fromClose := "}}" + rest;
    var fromTrail := hole.trail + fromClose;
    var fromPath := hole.path + fromTrail;
    PeeledIsLaidOut(text, at, hole, hole.lead + fromPath, fromPath, fromTrail, fromClose, rest);
  }

  lemma PeeledIsLaidOut(text: string, at: nat, hole: Part, fromLead: string, fromPath: string, fromTrail: string, fromClose: string, rest: string)
    requires hole.Hole? && at <= |text| && text[at..] == "{{" + fromLead
    requires fromLead == hole.lead + fromPath && fromPath == hole.path + fromTrail && fromTrail == hole.trail + fromClose && fromClose == "}}" + rest
    ensures LaidOut(text, at, hole)
  {
    var start := at + 2 + |hole.lead|;
    Peel(text, at, "{{", fromLead);
    Peel(text, at + 2, hole.lead, fromPath);
    Peel(text, start, hole.path, fromTrail);
    Peel(text, start + |hole.path|, hole.trail, fromClose);
    Peel(text, start + |hole.path| + |hole.trail|, "}}", rest);
  }

  /** Where a placeholder is written, the scan matches it, to its end. */
  lemma WrittenIsMatched(text: string, at: nat, hole: Part, rest: string)
    requires HoleOk(hole) && at <= |text| && text[at..] == WrittenPart(hole) + rest
    ensures MatchAt(text, at) == Some(Match(hole.path, at + |WrittenPart(hole)|))
  {
    WrittenIsLaidOut(text, at, hole, rest);
    LaidOutIsMatched(text, at, hole);
  }

  lemma LaidOutIsMatched(text: string, at: nat, hole: Part)
    requires HoleOk(hole) && LaidOut(text, at, hole)
    ensures MatchAt(text, at) == Some(Match(hole.path, at + |WrittenPart(hole)|))
  {
    hide IsSpace, IsPathChar, SkipSpace, SkipPath;
    var start := at + 2 + |hole.lead|;
    var stop := start + |hole.path|;
    var close := stop + |hole.trail|;
    assert forall k :: at + 2 <= k < start ==> text[k] == text[at + 2..start][k - at - 2];
    assert forall k :: start <= k < stop ==> text[k] == text[start..stop][k - start];
    assert forall k :: stop <= k < close ==> text[k] == text[stop..close][k - stop];
    assert text[close] == text[close..close + 2][0] == '}';
    CharsApart(text[start]);
    CharsApart(text[stop]);
    CharsApart('}');
    SkipsSpaces(text, at + 2, start);
    SkipsPathChars(text, start, stop);
    SkipsSpaces(text, stop, close);
  }

  lemma SixStretches(text: string, a: nat, b: nat, c: nat, d: nat, e: nat, f: nat)
    requires a <= b <= c <= d <= e <= f <= |text|
    ensures text[a..] == text[a..b] + text[b..c] + text[c..d] + text[d..e] + text[e..f] + text[f..]
  {
    assert text[a..] == text[a..b] + text[b..] && text[b..] == text[b..c] + text[c..] && text[c..] == text[c..d] + text[d..];
    assert text[d..] == text[d..e] + text[e..] && text[e..] == text[e..f] + text[f..];
  }

  /** What the scan matches is a placeholder written there. */
  lemma MatchedIsWritten(text: string, at: nat) returns (hole: Part, rest: string)
    requires at <= |text| && MatchAt(text, at).Some?
    ensures HoleOk(hole) && text[at..] == WrittenPart(hole) + rest
    ensures hole.path == MatchAt(text, at).value.path && MatchAt(text, at).value.end == at + |WrittenPart(hole)| && rest == text[MatchAt(text, at).value.end..]
  {
    hide IsSpace, IsPathChar, SkipSpace, SkipPath;
    var start := SkipSpace(text, at + 2);
    var stop := SkipPath(text, start);
    var close := SkipSpace(text, stop);
    SpaceScanned(text, at + 2);
    SpaceScanned(text, stop);
    hole, rest := Hole(text[at + 2..start], text[start..stop], text[stop..close]), text[close + 2..];
    SixStretches(text, at, at + 2, start, stop, close, close + 2);
  }

  lemma MatchesExactly(text: string, at: nat)
    requires at <= |text|
    ensures MatchAt(text, at).Some? <==> Begins(text, at)
  {
    if MatchAt(text, at).Some? {
      var hole, rest := MatchedIsWritten(text, at);
    }
    if Begins(text, at) {
      var hole: Part, rest: string :| HoleOk(hole) && text[at..] == WrittenPart(hole) + rest;
      WrittenIsMatched(text, at, hole, rest);
    }
  }

  // ---------------------------------------------------------------- the scan is local

  lemma BeginsFurther(front: string, text: string, at: nat)
    ensures Begins(front + text, |front| + at) <==> Begins(text, at)
  {
    if at <= |text| { assert (front + text)[|front| + at..] == text[at..]; }
  }

  lemma MatchFurther(front: string, text: string, at: nat)
    requires at <= |text|
    ensures MatchAt(front + text, |front| + at) ==
            match MatchAt(text, at) case Some(m) => Some(Match(m.path, |front| + m.end)) case None => None
  {
    hide MatchAt;
    MatchesExactly(front + text, |front| + at);
    MatchesExactly(text, at);
    BeginsFurther(front, text, at);
    if MatchAt(text, at).Some? {
      var hole, rest := MatchedIsWritten(text, at);
      assert (front + text)[|front| + at..] == text[at..];
      WrittenIsMatched(front + text, |front| + at, hole, rest);
    }
  }

  lemma {:induction false} PiecesFurther(front: string, text: string, at: nat)
    requires at <= |text|
    ensures PiecesFrom(front + text, |front| + at) == PiecesFrom(text, at)
    decreases |text| - at
  {
    hide MatchAt;
    if at < |text| {
      MatchFurther(front, text, at);
      match MatchAt(text, at)
      case Some(m) => PiecesFurther(front, text, m.end);
      case None => PiecesFurther(front, text, at + 1);
    }
  }

  // ---------------------------------------------------------------- the pieces of a written text

  function Chars(text: string): seq<Piece> { seq(|text|, i requires 0 <= i < |text| => Char(text[i])) }

  function PiecesOf(parts: seq<Part>): seq<Piece> {
    if parts == [] then [] else
      (match parts[0] case Plain(text) => Chars(text) case Hole(_, path, _) => [Ref(path)]) + PiecesOf(parts[1..])
  }

  lemma CharsSplit(c: char, rest: string)
    ensures Chars([c] + rest) == [Char(c)] + Chars(rest)
  {
  }

  lemma FirstOf(text: string, at: nat, end: nat)
    requires at < end <= |text|
    ensures text[at..end] == [text[at]] + text[at + 1..end]
  {
  }

  lemma Appended<T>(x: T, a: seq<T>, b: seq<T>)
    ensures ([x] + a) + b == [x] + (a + b)
  {
  }

  lemma NoChars()
    ensures Chars("") == []
  {
  }

  lemma {:induction false} PlainPieces(text: string, at: nat, end: nat)
    requires at <= end <= |text| && forall k :: at <= k < end ==> !Begins(text, k)
    ensures PiecesFrom(text, at) == Chars(text[at..end]) + PiecesFrom(text, end)
    decreases end - at
  {
    hide MatchAt, Begins, Chars;
    if at < end {
      MatchesExactly(text, at);
      PlainPieces(text, at + 1, end);
      FirstOf(text, at, end);
      CharsSplit(text[at], text[at + 1..end]);
      Appended(Char(text[at]), Chars(text[at + 1..end]), PiecesFrom(text, end));
    } else {
      NoChars();
      assert text[at..end] == "";
    }
  }

  lemma {:induction false} WrittenPieces(parts: seq<Part>)
    requires PartsOk(parts)
    ensures Pieces(Written(parts)) == PiecesOf(parts)
  {
    hide MatchAt;
    if parts != [] {
      var head, rest := WrittenPart(parts[0]), Written(parts[1..]);
      var text := Written(parts);
      WrittenPieces(parts[1..]);
      PiecesFurther(head, rest, 0);
      match parts[0]
      case Plain(plain) =>
        PlainPieces(text, 0, |plain|);
        assert text[0..|plain|] == plain;
      case Hole(_, path, _) =>
        assert text[0..] == WrittenPart(parts[0]) + rest;
        WrittenIsMatched(text, 0, parts[0], rest);
    }
  }

  lemma {:induction false} LoneIsSingle(parts: seq<Part>)
    requires PartsOk(parts)
    ensures SinglePath(Written(parts)) == Lone(parts)
  {
    hide MatchAt;
    if parts == [] {
      MatchesExactly("", 0);
    } else {
      var text, rest := Written(parts), Written(parts[1..]);
      match parts[0]
      case Plain(plain) =>
        if plain == "" { LoneIsSingle(parts[1..]); assert text == rest; }
        else {
          assert !Begins(text, 0);
          MatchesExactly(text, 0);
        }
      case Hole(_, path, _) =>
        assert text[0..] == WrittenPart(parts[0]) + rest;
        WrittenIsMatched(text, 0, parts[0], rest);
    }
  }

  // ---------------------------------------------------------------- and what they become

  lemma {:induction false} CharsInterpolate(text: string, pieces: seq<Piece>, scope: Json, render: Json -> string)
    ensures Resolvable(Chars(text) + pieces, scope) <==> Resolvable(pieces, scope)
    ensures Resolvable(pieces, scope) ==> Interpolate(Chars(text) + pieces, scope, render) == text + Interpolate(pieces, scope, render)
  {
    hide Chars, Resolvable, Interpolate, Lookup;
    if text == "" {
      NoChars();
      assert [] + pieces == pieces;
    } else {
      CharsInterpolate(text[1..], pieces, scope, render);
      CharsSplit(text[0], text[1..]);
      assert text == [text[0]] + text[1..];
      assert [Char(text[0])] + Chars(text[1..]) + pieces == [Char(text[0])] + (Chars(text[1..]) + pieces);
      CharInterpolates(text[0], Chars(text[1..]) + pieces, scope, render);
      if Resolvable(pieces, scope) { assert [text[0]] + (text[1..] + Interpolate(pieces, scope, render)) == text + Interpolate(pieces, scope, render); }
    }
  }

  lemma CharInterpolates(c: char, pieces: seq<Piece>, scope: Json, render: Json -> string)
    ensures Resolvable([Char(c)] + pieces, scope) <==> Resolvable(pieces, scope)
    ensures Resolvable(pieces, scope) ==> Interpolate([Char(c)] + pieces, scope, render) == [c] + Interpolate(pieces, scope, render)
  {
    hide Lookup;
    var all := [Char(c)] + pieces;
    assert all[0] == Char(c) && all[1..] == pieces;
    assert forall i :: 0 <= i < |pieces| ==> all[i + 1] == pieces[i];
  }

  lemma RefInterpolates(path: string, pieces: seq<Piece>, scope: Json, render: Json -> string)
    ensures Resolvable([Ref(path)] + pieces, scope) <==> Lookup(scope, path).Some? && Resolvable(pieces, scope)
    ensures Resolvable([Ref(path)] + pieces, scope) ==>
            Interpolate([Ref(path)] + pieces, scope, render) == Stringify(render, Lookup(scope, path).value) + Interpolate(pieces, scope, render)
  {
    var all := [Ref(path)] + pieces;
    assert all[0] == Ref(path) && all[1..] == pieces;
    assert forall i :: 0 <= i < |pieces| ==> all[i + 1] == pieces[i];
  }

  lemma {:induction false} PiecesInterpolate(parts: seq<Part>, scope: Json, render: Json -> string)
    ensures Filled(parts, scope, render).Some? <==> Resolvable(PiecesOf(parts), scope)
    ensures Filled(parts, scope, render).Some? ==> Filled(parts, scope, render).value == Interpolate(PiecesOf(parts), scope, render)
  {
    hide Resolvable, Interpolate, Lookup;
    if parts == [] {
      NothingInterpolates(scope, render);
    } else {
      PiecesInterpolate(parts[1..], scope, render);
      match parts[0]
      case Plain(text) => CharsInterpolate(text, PiecesOf(parts[1..]), scope, render);
      case Hole(_, path, _) => RefInterpolates(path, PiecesOf(parts[1..]), scope, render);
    }
  }

  lemma NothingInterpolates(scope: Json, render: Json -> string)
    ensures Resolvable([], scope) && Interpolate([], scope, render) == ""
  {
  }

  /**
   * Resolving a written text: a placeholder alone gives the value itself, whatever it is;
   * any other text is filled in, and fails exactly when some path names nothing.
   */
  lemma ResolveFills(parts: seq<Part>, scope: Json, render: Json -> string)
    requires PartsOk(parts)
    ensures Resolve(Str(Written(parts)), scope, render) ==
            if Lone(parts).Some? then Lookup(scope, Lone(parts).value)
            else match Filled(parts, scope, render) case Some(text) => Some(Str(text)) case None => None
  {
    hide Pieces, Resolvable, Interpolate, Lookup, SinglePath;
    LoneIsSingle(parts);
    WrittenPieces(parts);
    PiecesInterpolate(parts, scope, render);
  }

  /** Every text is written so. */
  lemma {:induction false} EveryTextIsWritten(text: string) returns (parts: seq<Part>)
    ensures PartsOk(parts) && Written(parts) == text
    decreases |text|
  {
    hide HoleOk, MatchAt, Begins, PartsOk, Written, WrittenPart;
    var at := FirstBeginning(text, 0);
    var front := Plain(text[..at]);
    assert text[..at] + text[at..] == text;
    if at == |text| {
      NoParts();
      PlainFirst(text[..at], []);
      parts := [front] + [];
    } else {
      MatchesExactly(text, at);
      var hole, rest := MatchedIsWritten(text, at);
      var more := EveryTextIsWritten(rest);
      HoleFirst(hole, more);
      PlainFirst(text[..at], [hole] + more);
      parts := [front] + ([hole] + more);
    }
  }

  lemma NoParts()
    ensures PartsOk([]) && Written([]) == ""
  {
  }

  lemma HoleFirst(hole: Part, rest: seq<Part>)
    requires HoleOk(hole) && PartsOk(rest)
    ensures PartsOk([hole] + rest) && Written([hole] + rest) == WrittenPart(hole) + Written(rest)
  {
    assert ([hole] + rest)[1..] == rest;
  }

  lemma PlainFirst(plain: string, rest: seq<Part>)
    requires PartsOk(rest) && forall k :: 0 <= k < |plain| ==> !Begins(plain + Written(rest), k)
    ensures PartsOk([Plain(plain)] + rest) && Written([Plain(plain)] + rest) == plain + Written(rest)
  {
    hide Begins;
    var parts := [Plain(plain)] + rest;
    assert parts[1..] == rest && Written(parts) == plain + Written(rest);
  }

  /** The first place from `from` on where a placeholder begins, or the end. */
  lemma {:induction false} FirstBeginning(text: string, from: nat) returns (at: nat)
    requires from <= |text|
    ensures from <= at <= |text| && (forall k :: from <= k < at ==> !Begins(text, k)) && (at < |text| ==> Begins(text, at))
    decreases |text| - from
  {
    if from == |text| || Begins(text, from) { at := from; } else { at := FirstBeginning(text, from + 1); }
  }

  /** A path in the middle of a text: the text before it, the text of its value, and what the rest becomes. */
  lemma PathInText(before: string, path: string, rest: seq<Part>, scope: Json, render: Json -> string)
    requires '{' !in before && IsPath(path) && PartsOk(rest) && (before != "" || Written(rest) != "")
    ensures Resolve(Str(before + "{{" + path + "}}" + Written(rest)), scope, render) ==
            match (Lookup(scope, path), Filled(rest, scope, render))
            case (Some(Str(s)), Some(after)) => Some(Str(before + s + after))
            case (Some(value), Some(after)) => Some(Str(before + render(value) + after))
            case _ => None
  {
    hide Resolve, Lookup, Begins, PartsOk, Written, Lone, Filled;
    var parts := [Plain(before)] + ([Hole("", path, "")] + rest);
    PathWritten(before, path, rest);
    ResolveFills(parts, scope, render);
    LoneFirst(before, Hole("", path, ""), rest);
    FilledFirst(before, path, rest, scope, render);
  }

  lemma PathWritten(before: string, path: string, rest: seq<Part>)
    requires '{' !in before && IsPath(path) && PartsOk(rest)
    ensures var parts := [Plain(before)] + ([Hole("", path, "")] + rest);
            PartsOk(parts) && Written(parts) == before + "{{" + path + "}}" + Written(rest)
  {
    hide Begins, PartsOk, Written;
    var hole := Hole("", path, "");
    HoleFirst(hole, rest);
    forall k | 0 <= k < |before| ensures !Begins(before + Written([hole] + rest), k) { NoBrace(before, before + Written([hole] + rest), k); }
    PlainFirst(before, [hole] + rest);
    assert WrittenPart(hole) == "{{" + path + "}}";
    assert before + ("{{" + path + "}}" + Written(rest)) == before + "{{" + path + "}}" + Written(rest);
  }

  lemma LoneFirst(before: string, hole: Part, rest: seq<Part>)
    requires hole.Hole? && (before != "" || Written(rest) != "")
    ensures Lone([Plain(before)] + ([hole] + rest)).None?
  {
    assert ([hole] + rest)[1..] == rest && ([Plain(before)] + ([hole] + rest))[1..] == [hole] + rest;
  }

  lemma FilledFirst(before: string, path: string, rest: seq<Part>, scope: Json, render: Json -> string)
    ensures Filled([Plain(before)] + ([Hole("", path, "")] + rest), scope, render) ==
            match (Lookup(scope, path), Filled(rest, scope, render))
            case (Some(Str(s)), Some(after)) => Some(before + s + after)
            case (Some(value), Some(after)) => Some(before + render(value) + after)
            case _ => None
  {
    hide Lookup;
    var tail := [Hole("", path, "")] + rest;
    assert tail[1..] == rest && ([Plain(before)] + tail)[1..] == tail;
    if Lookup(scope, path).Some? && Filled(rest, scope, render).Some? {
      var value, after := Lookup(scope, path).value, Filled(rest, scope, render).value;
      var shown := if value.Str? then value.s else render(value);
      assert before + (shown + after) == before + shown + after;
    }
  }

  lemma NoBrace(before: string, text: string, k: nat)
    requires '{' !in before && before <= text && k < |before|
    ensures !Begins(text, k)
  {
    assert text[k] == before[k] && before[k] in before;
    assert text[k..][0] != '{';
  }

  /** Resolving goes into lists and objects, one element at a time, and leaves every other value alone. */
  lemma ResolveGoesInside(value: Json, scope: Json, render: Json -> string)
    requires !value.Str?
    ensures var r := Resolve(value, scope, render);
            match value
            case Arr(items) =>
              (r.Some? <==> forall i :: 0 <= i < |items| ==> Resolve(items[i], scope, render).Some?) &&
              (r.Some? ==> r.value.Arr? && |r.value.items| == |items| && forall i :: 0 <= i < |items| ==> Resolve(items[i], scope, render) == Some(r.value.items[i]))
            case Obj(fields) =>
              (r.Some? <==> forall k :: k in fields ==> Resolve(fields[k], scope, render).Some?) &&
              (r.Some? ==> r.value.Obj? && r.value.fields.Keys == fields.Keys && forall k :: k in fields ==> Resolve(fields[k], scope, render) == Some(r.value.fields[k]))
            case _ => r == Some(value)
  {
  }
}
