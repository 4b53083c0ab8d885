/**
 Public locators (strategyos_mvp/llm_qa.py): paths such as `public_context_packet.kpis[2].value`
 into a JSON packet.  The parser is two nested loops over the text; here it is shown to undo a
 printer of paths.
 */
module PublicLocator {
  import opened Options
  import opened Strings
  import opened Numerals
  import opened Json

  const PREFIX: string := "public_context_packet."
  const WHOLE: string := "public_context_packet"

  /** None is JNull; Raises is the IndexError of a list index below its negative length. */
  datatype Outcome = Value(json: Json) | Raises

  /** Where the parser stands: at a value, back with None, or out with an exception. */
  datatype Move = To(json: Json) | Stop | Crash

  predicate FirstAt(s: string, c: char, i: nat) {
    i < |s| && s[i] == c && forall j :: 0 <= j < i ==> s[j] != c
  }

  /** s.find(c), None for -1 */
  function FindChar(s: string, c: char): (r: Option<nat>)
    ensures r.Some? ==> FirstAt(s, c, r.value)
    ensures r == None <==> c !in s
  {
    if s == "" then None
    else if s[0] == c then Some(0)
    else
      assert s == [s[0]] + s[1..];
      match FindChar(s[1..], c)
      case None => None
      case Some(i) => Some(i + 1)
  }

  lemma FindIs(s: string, c: char, i: nat)
    requires FirstAt(s, c, i)
    ensures FindChar(s, c) == Some(i)
  {
    assert c in s;
  }

  /** The nonempty segments of s.split(c). */
  function Segments(s: string, c: char): seq<string> {
    match FindChar(s, c)
    case None => if s == "" then [] else [s]
    case Some(i) => (if i == 0 then [] else [s[..i]]) + Segments(s[i + 1..], c)
  }

  function Get(current: Json, key: string): Move {
    if !current.JObject? then Stop else To(Lookup(current.fields, key).Or(JNull))
  }

  /** Python list indexing: a negative index counts from the end. */
  function At(current: Json, index: int): Move {
    if !current.JList? || index >= |current.items| then Stop
    else if index >= 0 then To(current.items[index])
    else if index >= -|current.items| then To(current.items[|current.items| + index])
    else Crash
  }

  /** After one bracket: finished, or at a value with more of the segment to read. */
  datatype Taken = Done(move: Move) | More(json: Json, rest: string)

  /** An optional key and the bracket that opens at `open`. */
  function TakeBracket(current: Json, part: string, open: nat): (t: Taken)
    requires open < |part| && part[open] == '['
    ensures t.More? ==> |t.rest| < |part|
  {
    var moved := if open == 0 then To(current) else Get(current, part[..open]);
    if !moved.To? then Done(moved)
    else
      match FindChar(part[open..], ']')
      case None => Done(Stop)
      case Some(width) =>
        match ReadInt(part[open + 1..open + width])
        case None => Done(Stop)
        case Some(index) =>
          var next := At(moved.json, index);
          if next.To? then More(next.json, part[open + width + 1..]) else Done(next)
  }

  /** The inner loop on one segment: keys and bracketed indices. */
  function Part(current: Json, part: string): Move
    decreases |part|
  {
    match FindChar(part, '[')
    case None => if part == "" then To(current) else Get(current, part)
    case Some(open) =>
      match TakeBracket(current, part, open)
      case Done(move) => move
      case More(json, rest) => Part(json, rest)
  }

  function Parts(current: Json, parts: seq<string>): Move {
    if parts == [] then To(current)
    else
      var moved := Parts(current, parts[..|parts| - 1]);
      if moved.To? then Part(moved.json, parts[|parts| - 1]) else moved
  }

  function Final(m: Move): Outcome {
    match m
    case To(json) => Value(json)
    case Stop => Value(JNull)
    case Crash => Raises
  }

  datatype Path = NoPath | Whole | Below(path: string)

  function PathOf(locator: string): Path {
    if locator == "" then NoPath
    else if PREFIX <= locator then Below(locator[|PREFIX|..])
    else if locator == WHOLE then Whole
    else Below(locator)
  }

  function Resolved(packet: Json, locator: string): Outcome {
    match PathOf(locator)
    case NoPath => Value(JNull)
    case Whole => Value(packet)
    case Below(path) => Final(Parts(packet, Segments(path, '.')))
  }

  /** The parser: an outer loop over the segments, an inner one over the brackets of a segment. */
  method Resolve(packet: Json, locator: string) returns (r: Outcome)
    ensures r == Resolved(packet, locator)
  {
    match PathOf(locator) {
      case NoPath => return Value(JNull);
      case Whole => return Value(packet);
      case Below(path) =>
        var m := ResolveParts(packet, Segments(path, '.'));
        return Final(m);
    }
  }

  method ResolveParts(packet: Json, segments: seq<string>) returns (m: Move)
    ensures m == Parts(packet, segments)
  {
    var current := packet;
    for i := 0 to |segments|
      invariant Parts(packet, segments[..i]) == To(current)
    {
      assert segments[..i + 1][..i] == segments[..i];
      var moved := ResolvePart(current, segments[i]);
      if !moved.To? {
        PartsStop(packet, segments, i + 1);
        return moved;
      }
      current := moved.json;
    }
    assert segments[..|segments|] == segments;
    return To(current);
  }

  lemma {:induction false} PartsStop(packet: Json, parts: seq<string>, n: nat)
    requires n <= |parts| && !Parts(packet, parts[..n]).To?
    ensures Parts(packet, parts) == Parts(packet, parts[..n])
  {
    if n == |parts| {
      assert parts[..n] == parts;
    } else {
      assert parts[..|parts| - 1][..n] == parts[..n];
      PartsStop(packet, parts[..|parts| - 1], n);
    }
  }

  method ResolvePart(from: Json, segment: string) returns (m: Move)
    ensures m == Part(from, segment)
  {
    var current, part := from, segment;
    while true
      invariant Part(from, segment) == Part(current, part)
      decreases |part|
    {
      var open := FindChar(part, '[');
      if open.None? {
        return if part != "" then Get(current, part) else To(current);
      }
      var taken := ResolveBracket(current, part, open.value);
      if taken.Done? {
        return taken.move;
      }
      current, part := taken.json, taken.rest;
    }
  }

  method ResolveBracket(from: Json, part: string, open: nat) returns (t: Taken)
    requires open < |part| && part[open] == '['
    ensures t == TakeBracket(from, part, open)
  {
    var current := from;
    var key := part[..open];
    if key != "" {
      var moved := Get(current, key);
      if !moved.To? {
        return Done(moved);
      }
      current := moved.json;
    }
    var width := FindChar(part[open..], ']');
    if width.None? {
      return Done(Stop);
    }
    var index := ReadInt(part[open + 1..open + width.value]);
    if index.None? {
      return Done(Stop);
    }
    var next := At(current, index.value);
    if !next.To? {
      return Done(next);
    }
    return More(next.json, part[open + width.value + 1..]);
  }

  // ----- Paths, printed and walked -----

  datatype Step = Key(name: string) | Index(i: int)

  predicate ValidStep(step: Step) {
    step.Key? ==> step.name != "" && '.' !in step.name && '[' !in step.name
  }

  function Signed(i: int): string {
    if i < 0 then ['-'] + Digits(-i) else Digits(i)
  }

  function Bracketed(i: int): string {
    ['['] + Signed(i) + [']']
  }

  /** A key opens a new dotted segment, an index is appended to the current one. */
  function Print(steps: seq<Step>): string {
    if steps == [] then ""
    else
      var text := Print(steps[..|steps| - 1]);
      match steps[|steps| - 1]
      case Key(name) => if text == "" then name else text + "." + name
      case Index(i) => text + Bracketed(i)
  }

  /** One step down a tree: None for a missing key, for an index beyond the end and below anything but a
      container; a negative index counts from the end and raises when it goes beyond the start. */
  function Descend(from: Outcome, step: Step): Outcome {
    match from
    case Raises => Raises
    case Value(json) =>
      match step
      case Key(name) => Value(if json.JObject? then Lookup(json.fields, name).Or(JNull) else JNull)
      case Index(i) =>
        if !json.JList? || i >= |json.items| then Value(JNull)
        else if i >= 0 then Value(json.items[i])
        else if -i <= |json.items| then Value(json.items[|json.items| + i])
        else Raises
  }

  function Walk(packet: Json, steps: seq<Step>): Outcome {
    if steps == [] then Value(packet) else Descend(Walk(packet, steps[..|steps| - 1]), steps[|steps| - 1])
  }

  // ----- The parser undoes the printer -----

  lemma SegmentsAt(s: string, c: char, i: nat)
    requires FirstAt(s, c, i)
    ensures Segments(s, c) == (if i == 0 then [] else [s[..i]]) + Segments(s[i + 1..], c)
  {
    FindIs(s, c, i);
  }

  lemma SegmentsOfPlain(s: string, c: char)
    requires c !in s
    ensures Segments(s, c) == if s == "" then [] else [s]
  {
  }

  lemma DottedPieces(s: string, name: string, i: nat)
    requires FirstAt(s, '.', i)
    ensures FirstAt(s + ['.'] + name, '.', i)
    ensures (s + ['.'] + name)[..i] == s[..i] && (s + ['.'] + name)[i + 1..] == s[i + 1..] + ['.'] + name
  {
  }

  lemma PlainDotted(s: string, name: string)
    requires '.' !in s
    ensures Segments(s + ['.'] + name, '.') == (if s == "" then [] else [s]) + Segments(name, '.')
  {
    var t := s + ['.'] + name;
    assert FirstAt(t, '.', |s|);
    SegmentsAt(t, '.', |s|);
    assert t[..|s|] == s && t[|s| + 1..] == name;
  }

  lemma Reassociate(a: seq<string>, b: seq<string>, c: seq<string>)
    ensures a + (b + c) == a + b + c
  {
  }

  /** A dot starts a new segment. */
  lemma {:induction false} SegmentsDot(s: string, name: string)
    ensures Segments(s + ['.'] + name, '.') == Segments(s, '.') + Segments(name, '.')
    decreases |s|
  {
    match FindChar(s, '.')
    case None =>
      PlainDotted(s, name);
      SegmentsOfPlain(s, '.');
    case Some(i) =>
      SegmentsAt(s, '.', i);
      DottedPieces(s, name, i);
      SegmentsAt(s + ['.'] + name, '.', i);
      SegmentsDot(s[i + 1..], name);
      Reassociate(if i == 0 then [] else [s[..i]], Segments(s[i + 1..], '.'), Segments(name, '.'));
  }

  ghost function ExtendLast(parts: seq<string>, u: string): seq<string>
    requires parts != []
  {
    parts[..|parts| - 1] + [parts[|parts| - 1] + u]
  }

  /** Text without a dot extends the last segment. */
  lemma {:induction false} SegmentsExtend(s: string, u: string)
    requires s != "" && s[|s| - 1] != '.' && '.' !in u
    ensures Segments(s, '.') != [] && Segments(s + u, '.') == ExtendLast(Segments(s, '.'), u)
    decreases |s|
  {
    match FindChar(s, '.')
    case None =>
      SegmentsOfPlain(s, '.');
      SegmentsOfPlain(s + u, '.');
    case Some(i) =>
      var rest := s[i + 1..];
      SegmentsAt(s, '.', i);
      assert FirstAt(s + u, '.', i);
      SegmentsAt(s + u, '.', i);
      assert (s + u)[..i] == s[..i] && (s + u)[i + 1..] == rest + u;
      SegmentsExtend(rest, u);
      ExtendAfter(if i == 0 then [] else [s[..i]], Segments(rest, '.'), u);
  }

  lemma ExtendAfter(before: seq<string>, parts: seq<string>, u: string)
    requires parts != []
    ensures ExtendLast(before + parts, u) == before + ExtendLast(parts, u)
  {
  }

  lemma SignedReads(i: int)
    ensures ReadInt(Signed(i)) == Some(i)
    ensures ']' !in Signed(i) && '[' !in Signed(i) && '.' !in Signed(i) && Signed(i) != ""
  {
    if i < 0 {
      ReadDigitsOfDigits(-i);
      var s := Signed(i);
      assert Strip(s) == s;
      assert s[1..] == Digits(-i);
    } else {
      ReadIntOfDigits(i);
    }
  }

  function Then(m: Move, i: int): Move {
    if m.To? then At(m.json, i) else m
  }

  function Start(current: Json, key: string): Move {
    if key == "" then To(current) else Get(current, key)
  }

  lemma TakeIs(current: Json, part: string, open: nat, width: nat, index: int)
    requires FirstAt(part, '[', open) && FirstAt(part[open..], ']', width)
    requires ReadInt(part[open + 1..open + width]) == Some(index)
    ensures TakeBracket(current, part, open) ==
            var m := Then(Start(current, part[..open]), index);
            if m.To? then More(m.json, part[open + width + 1..]) else Done(m)
  {
    FindIs(part[open..], ']', width);
  }

  lemma PartAt(current: Json, part: string, open: nat)
    requires FirstAt(part, '[', open)
    ensures Part(current, part) ==
            match TakeBracket(current, part, open)
            case Done(move) => move
            case More(json, rest) => Part(json, rest)
  {
    FindIs(part, '[', open);
  }

  /** One bracket of a segment, `key` before it and `rest` after it. */
  lemma PartStep(current: Json, part: string, open: nat, width: nat, index: int, key: string, rest: string)
    requires FirstAt(part, '[', open) && FirstAt(part[open..], ']', width)
    requires ReadInt(part[open + 1..open + width]) == Some(index)
    requires part[..open] == key && part[open + width + 1..] == rest
    ensures Part(current, part) ==
            var m := Then(Start(current, key), index);
            if m.To? then Part(m.json, rest) else m
  {
    TakeIs(current, part, open, width, index);
    PartAt(current, part, open);
  }

  function Brackets(indices: seq<int>): string {
    if indices == [] then "" else Bracketed(indices[0]) + Brackets(indices[1..])
  }

  /** Where the first bracket of a segment opens and closes. */
  lemma BracketAt(key: string, body: string, rest: string)
    requires '[' !in key && ']' !in body
    ensures var s := key + ("[" + body + "]" + rest);
            && FirstAt(s, '[', |key|) && FirstAt(s[|key|..], ']', |body| + 1)
            && s[..|key|] == key && s[|key| + 1..|key| + |body| + 1] == body && s[|key| + |body| + 2..] == rest
  {
    var s := key + ("[" + body + "]" + rest);
    assert s[|key|..] == "[" + body + "]" + rest;
    assert s[..|key|] == key;
    assert s[|key| + 1..|key| + |body| + 1] == body;
    assert s[|key| + |body| + 2..] == rest;
  }

  lemma BracketPieces(key: string, i: int, rest: string)
    requires '[' !in key
    ensures var s, n := key + (Bracketed(i) + rest), |Signed(i)|;
            && FirstAt(s, '[', |key|) && FirstAt(s[|key|..], ']', n + 1)
            && s[..|key|] == key && s[|key| + 1..|key| + n + 1] == Signed(i) && s[|key| + n + 2..] == rest
  {
    SignedReads(i);
    BracketAt(key, Signed(i), rest);
    assert Bracketed(i) + rest == "[" + Signed(i) + "]" + rest;
  }

  function Indexed(m: Move, indices: seq<int>): Move {
    if indices == [] then m else Then(Indexed(m, indices[..|indices| - 1]), indices[|indices| - 1])
  }

  lemma {:induction false} IndexedFirst(m: Move, indices: seq<int>)
    requires indices != []
    ensures Indexed(m, indices) == Indexed(Then(m, indices[0]), indices[1..])
  {
    if |indices| > 1 {
      assert indices[..|indices| - 1][1..] == indices[1..][..|indices| - 2];
      IndexedFirst(m, indices[..|indices| - 1]);
    }
  }

  lemma {:induction false} IndexedStuck(m: Move, indices: seq<int>)
    requires !m.To?
    ensures Indexed(m, indices) == m
  {
    if indices != [] {
      IndexedStuck(m, indices[..|indices| - 1]);
    }
  }

  lemma PartOfKey(current: Json, key: string)
    requires '[' !in key
    ensures Part(current, key) == Start(current, key)
  {
  }

  lemma PartFirstBracket(current: Json, key: string, i: int, rest: string)
    requires '[' !in key
    ensures Part(current, key + (Bracketed(i) + rest)) ==
            var m := Then(Start(current, key), i);
            if m.To? then Part(m.json, rest) else m
  {
    SignedReads(i);
    BracketPieces(key, i, rest);
    PartStep(current, key + (Bracketed(i) + rest), |key|, |Signed(i)| + 1, i, key, rest);
  }

  /** A segment made of a key and bracketed indices is read as the key and the indices, in order. */
  lemma {:induction false} PartOfBrackets(current: Json, key: string, indices: seq<int>)
    requires '[' !in key
    ensures Part(current, key + Brackets(indices)) == Indexed(Start(current, key), indices)
    decreases |indices|
  {
    if indices == [] {
      assert key + Brackets(indices) == key;
      PartOfKey(current, key);
    } else {
      var rest := Brackets(indices[1..]);
      PartFirstBracket(current, key, indices[0], rest);
      IndexedFirst(Start(current, key), indices);
      var m := Then(Start(current, key), indices[0]);
      if m.To? {
        PartOfBrackets(m.json, "", indices[1..]);
        assert "" + rest == rest;
      } else {
        IndexedStuck(m, indices[1..]);
      }
    }
  }

  /** A dotted segment as a key and its indices. */
  datatype Chunk = Chunk(key: string, indices: seq<int>)

  function TextOf(c: Chunk): string { c.key + Brackets(c.indices) }

  function Texts(chunks: seq<Chunk>): seq<string> {
    if chunks == [] then [] else Texts(chunks[..|chunks| - 1]) + [TextOf(chunks[|chunks| - 1])]
  }

  function AddStep(chunks: seq<Chunk>, step: Step): seq<Chunk> {
    match step
    case Key(name) => chunks + [Chunk(name, [])]
    case Index(i) =>
      if chunks == [] then [Chunk("", [i])]
      else
        var last := chunks[|chunks| - 1];
        chunks[..|chunks| - 1] + [last.(indices := last.indices + [i])]
  }

  function Chunks(steps: seq<Step>): seq<Chunk> {
    if steps == [] then [] else AddStep(Chunks(steps[..|steps| - 1]), steps[|steps| - 1])
  }

  predicate ValidSteps(steps: seq<Step>) {
    forall i :: 0 <= i < |steps| ==> ValidStep(steps[i])
  }

  lemma {:induction false} BracketsAppend(indices: seq<int>, i: int)
    ensures Brackets(indices + [i]) == Brackets(indices) + Bracketed(i)
  {
    if indices == [] {
      assert Brackets([i]) == Bracketed(i) + Brackets([]);
    } else {
      assert (indices + [i])[1..] == indices[1..] + [i];
      BracketsAppend(indices[1..], i);
    }
  }

  lemma TextsAppend(chunks: seq<Chunk>, c: Chunk)
    ensures Texts(chunks + [c]) == Texts(chunks) + [TextOf(c)]
  {
    assert (chunks + [c])[..|chunks|] == chunks;
  }

  /** How the printed text grows. */
  function Grow(text: string, step: Step): string {
    match step
    case Key(name) => if text == "" then name else text + ['.'] + name
    case Index(i) => text + Bracketed(i)
  }

  /** The text so far is empty or ends inside a segment, and its segments are those of the chunks. */
  ghost predicate Prints(text: string, chunks: seq<Chunk>) {
    && (text == "" <==> chunks == [])
    && (text != "" ==> text[|text| - 1] != '.')
    && Segments(text, '.') == Texts(chunks)
  }

  lemma PrintKey(text: string, chunks: seq<Chunk>, name: string)
    requires Prints(text, chunks) && ValidStep(Key(name))
    ensures Prints(Grow(text, Key(name)), AddStep(chunks, Key(name)))
  {
    SegmentsOfPlain(name, '.');
    TextsAppend(chunks, Chunk(name, []));
    assert TextOf(Chunk(name, [])) == name;
    if text != "" {
      SegmentsDot(text, name);
    }
  }

  lemma FirstChunk(i: int)
    ensures TextOf(Chunk("", [i])) == Bracketed(i)
    ensures Texts([Chunk("", [i])]) == [Bracketed(i)]
  {
    BracketsAppend([], i);
    assert [] + [i] == [i];
    TextsAppend([], Chunk("", [i]));
    assert [] + [Chunk("", [i])] == [Chunk("", [i])];
  }

  lemma TextGrows(c: Chunk, i: int)
    ensures TextOf(c.(indices := c.indices + [i])) == TextOf(c) + Bracketed(i)
  {
    BracketsAppend(c.indices, i);
    var key, text, u := c.key, Brackets(c.indices), Bracketed(i);
    assert key + (text + u) == key + text + u;
  }

  lemma ExtendOnly(before: seq<string>, text: string, u: string)
    ensures ExtendLast(before + [text], u) == before + [text + u]
  {
  }

  lemma LastText(chunks: seq<Chunk>, i: int)
    requires chunks != []
    ensures Texts(chunks) != [] && Texts(AddStep(chunks, Index(i))) == ExtendLast(Texts(chunks), Bracketed(i))
  {
    var before, last := chunks[..|chunks| - 1], chunks[|chunks| - 1];
    var longer := last.(indices := last.indices + [i]);
    assert Texts(chunks) == Texts(before) + [TextOf(last)];
    TextsAppend(before, longer);
    TextGrows(last, i);
    ExtendOnly(Texts(before), TextOf(last), Bracketed(i));
  }

  lemma PrintIndex(text: string, chunks: seq<Chunk>, i: int)
    requires Prints(text, chunks)
    ensures Prints(Grow(text, Index(i)), AddStep(chunks, Index(i)))
  {
    SignedReads(i);
    var u := Bracketed(i);
    assert '.' !in u && u != "" && u[|u| - 1] == ']';
    if text == "" {
      SegmentsOfPlain(u, '.');
      FirstChunk(i);
      assert text + u == u;
    } else {
      SegmentsExtend(text, u);
      LastText(chunks, i);
    }
  }

  lemma {:induction false} PrintedChunks(steps: seq<Step>)
    requires ValidSteps(steps)
    ensures Prints(Print(steps), Chunks(steps))
  {
    if steps != [] {
      var init, step := steps[..|steps| - 1], steps[|steps| - 1];
      PrintedChunks(init);
      assert Print(steps) == Grow(Print(init), step);
      match step
      case Key(name) => PrintKey(Print(init), Chunks(init), name);
      case Index(i) => PrintIndex(Print(init), Chunks(init), i);
    }
  }

  function Move1(m: Move, step: Step): Move {
    match step
    case Key(name) => if m.To? then Get(m.json, name) else m
    case Index(i) => Then(m, i)
  }

  predicate PlainKeys(chunks: seq<Chunk>) {
    forall i :: 0 <= i < |chunks| ==> '[' !in chunks[i].key
  }

  lemma PartsAppend(packet: Json, chunks: seq<Chunk>, c: Chunk)
    requires '[' !in c.key
    ensures Parts(packet, Texts(chunks + [c])) ==
            var m := Parts(packet, Texts(chunks));
            if m.To? then Indexed(Start(m.json, c.key), c.indices) else m
  {
    var texts := Texts(chunks);
    TextsAppend(chunks, c);
    assert (texts + [TextOf(c)])[..|texts|] == texts;
    var m := Parts(packet, texts);
    if m.To? {
      PartOfBrackets(m.json, c.key, c.indices);
    }
  }

  lemma KeyMoves(packet: Json, chunks: seq<Chunk>, name: string)
    requires '[' !in name && name != ""
    ensures Parts(packet, Texts(AddStep(chunks, Key(name)))) == Move1(Parts(packet, Texts(chunks)), Key(name))
  {
    PartsAppend(packet, chunks, Chunk(name, []));
  }

  lemma IndexedAppend(m: Move, indices: seq<int>, i: int)
    ensures Indexed(m, indices + [i]) == Then(Indexed(m, indices), i)
  {
    assert (indices + [i])[..|indices|] == indices;
  }

  lemma IndexMoves(packet: Json, chunks: seq<Chunk>, i: int)
    requires PlainKeys(chunks)
    ensures Parts(packet, Texts(AddStep(chunks, Index(i)))) == Move1(Parts(packet, Texts(chunks)), Index(i))
  {
    if chunks == [] {
      PartsAppend(packet, [], Chunk("", [i]));
      assert [] + [Chunk("", [i])] == [Chunk("", [i])];
      IndexedAppend(To(packet), [], i);
      assert [] + [i] == [i];
    } else {
      var before, last := chunks[..|chunks| - 1], chunks[|chunks| - 1];
      assert chunks == before + [last];
      PartsAppend(packet, before, last);
      PartsAppend(packet, before, last.(indices := last.indices + [i]));
      var m := Parts(packet, Texts(before));
      if m.To? {
        IndexedAppend(Start(m.json, last.key), last.indices, i);
      }
    }
  }

  lemma StepKeepsPlain(chunks: seq<Chunk>, step: Step)
    requires PlainKeys(chunks) && ValidStep(step)
    ensures PlainKeys(AddStep(chunks, step))
  {
  }

  /** One move of the parser is one step of the walk; from None there is no way back. */
  lemma MoveDescends(m: Move, step: Step)
    ensures Final(Move1(m, step)) == Descend(Final(m), step)
  {
  }

  lemma {:induction false} ParserWalks(packet: Json, steps: seq<Step>)
    requires ValidSteps(steps)
    ensures PlainKeys(Chunks(steps))
    ensures Final(Parts(packet, Texts(Chunks(steps)))) == Walk(packet, steps)
  {
    if steps != [] {
      var init, step := steps[..|steps| - 1], steps[|steps| - 1];
      var chunks := Chunks(init);
      ParserWalks(packet, init);
      StepKeepsPlain(chunks, step);
      MoveDescends(Parts(packet, Texts(chunks)), step);
      match step
      case Key(name) => KeyMoves(packet, chunks, name);
      case Index(i) => IndexMoves(packet, chunks, i);
    }
  }

  /** Resolving a printed locator is walking its path: over every JSON tree, keys and integer indices. */
  lemma ResolvePrinted(packet: Json, steps: seq<Step>)
    requires ValidSteps(steps)
    ensures Resolved(packet, PREFIX + Print(steps)) == Walk(packet, steps)
  {
    var locator := PREFIX + Print(steps);
    assert |PREFIX| == 22 && locator[|PREFIX|..] == Print(steps);
    PrintedChunks(steps);
    ParserWalks(packet, steps);
  }

  /** An empty locator gives None, the packet's own name the packet, and a path without the prefix is walked as one
      with it, unless it reads as the packet's name or begins with the prefix. */
  lemma LocatorForms(packet: Json, steps: seq<Step>)
    ensures Resolved(packet, "") == Value(JNull)
    ensures Resolved(packet, "public_context_packet") == Value(packet)
    ensures ValidSteps(steps) && PathOf(Print(steps)) == Below(Print(steps)) ==>
              Resolved(packet, Print(steps)) == Walk(packet, steps)
  {
    assert |"public_context_packet"| == 21 && |PREFIX| == 22;
    if ValidSteps(steps) {
      PrintedChunks(steps);
      ParserWalks(packet, steps);
    }
  }

  /** Which locators are read as they stand. */
  lemma ReadAsItStands(locator: string)
    ensures PathOf(locator) == Below(locator) <==>
            locator != "" && locator != "public_context_packet" && !("public_context_packet." <= locator)
  {
    if PREFIX <= locator {
      assert |locator[|PREFIX|..]| < |locator|;
    }
  }

  /** A bracket that is not closed gives None. */
  lemma UnclosedIsNone(current: Json, key: string, rest: string)
    requires '[' !in key && ']' !in rest
    ensures Part(current, key + "[" + rest) == Stop
  {
    var part, open := key + "[" + rest, |key|;
    assert part[open] == '[' && part[..open] == key;
    assert part[open..] == "[" + rest;
    FindIs(part, '[', open);
  }

  /** A bracket that holds no integer gives None, whatever comes after it. */
  lemma NoIntegerIsNone(current: Json, key: string, body: string, rest: string)
    requires '[' !in key && ']' !in body && ReadInt(body) == None
    ensures Part(current, key + ("[" + body + "]" + rest)) == Stop
  {
    var part := key + ("[" + body + "]" + rest);
    BracketAt(key, body, rest);
    assert part[|key| + 1..|key| + (|body| + 1)] == body;
    StopsAt(current, part, |key|, |body| + 1);
  }

  lemma StopsAt(current: Json, part: string, open: nat, width: nat)
    requires FirstAt(part, '[', open) && FirstAt(part[open..], ']', width)
    requires ReadInt(part[open + 1..open + width]) == None
    ensures Part(current, part) == Stop
  {
    TakesNothing(current, part, open, width);
    PartAt(current, part, open);
  }

  lemma TakesNothing(current: Json, part: string, open: nat, width: nat)
    requires open < |part| && part[open] == '[' && FirstAt(part[open..], ']', width)
    requires ReadInt(part[open + 1..open + width]) == None
    ensures TakeBracket(current, part, open) == Done(Stop)
  {
    FindIs(part[open..], ']', width);
    if open > 0 {
      assert Get(current, part[..open]) != Crash;
    }
  }

  /** With natural-number indices nothing raises: out-of-range indices and missing keys give None. */
  lemma {:induction false} NaturalIndicesNeverRaise(packet: Json, steps: seq<Step>)
    requires forall i :: 0 <= i < |steps| && steps[i].Index? ==> steps[i].i >= 0
    ensures Walk(packet, steps).Value?
  {
    if steps != [] {
      NaturalIndicesNeverRaise(packet, steps[..|steps| - 1]);
    }
  }

  predicate FallsBelow(from: Outcome, step: Step) {
    from.Value? && from.json.JList? && step.Index? && step.i < -|from.json.items|
  }

  ghost predicate FallsAt(packet: Json, steps: seq<Step>, n: nat) {
    n < |steps| && FallsBelow(Walk(packet, steps[..n]), steps[n])
  }

  /** A path raises exactly when one of its indices falls below the negative length of the list it meets. */
  lemma {:induction false} RaisesExactly(packet: Json, steps: seq<Step>)
    ensures Walk(packet, steps).Raises? <==> exists n :: FallsAt(packet, steps, n)
  {
    if steps != [] {
      var last := |steps| - 1;
      var init := steps[..last];
      RaisesExactly(packet, init);
      forall n: nat
        ensures FallsAt(packet, steps, n) <==>
                FallsAt(packet, init, n) || (n == last && FallsBelow(Walk(packet, init), steps[last]))
      {
        if n < last {
          assert steps[..n] == init[..n];
        }
      }
      if FallsBelow(Walk(packet, init), steps[last]) {
        assert FallsAt(packet, steps, last);
      }
    }
  }

  /** `a[-1]` raises on an empty list. */
  lemma NegativeIndexRaises()
    ensures var packet, steps := JObject([Field("a", JList([]))]), [Key("a"), Index(-1)];
            ValidSteps(steps) && Resolved(packet, PREFIX + Print(steps)) == Raises
  {
    var packet, steps := JObject([Field("a", JList([]))]), [Key("a"), Index(-1)];
    assert steps[..1] == [Key("a")] && [Key("a")][..0] == [];
    assert Walk(packet, [Key("a")]) == Value(JList([]));
    ResolvePrinted(packet, steps);
  }
}
