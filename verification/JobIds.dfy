/**
 * Deterministic job ids: segments joined with `/`, none of them able to hold a
 * separator, so that an id gives its segments back; and the id of a dead-letter
 * record, which carries another id inside it.
 */
module JobIds {
  import opened Decimals

  /** A part of an id: a text, a number, or a number that is no real one. */
  datatype Part = Text(text: string) | Number(value: real) | NotFinite

  datatype Position = Prefix | PartAt(index: nat) | OriginalId | CreatedAt

  datatype Error =
    | NotSafe(position: Position)
    | Empty(position: Position)
    | HoldsSeparator(position: Position)
    | DigitsOnly(id: string)

  datatype Result<+T> = Ok(value: T) | Err(error: Error)

  const MAX_SAFE_INTEGER := 9007199254740991

  predicate IsSafe(value: real) {
    value.Floor as real == value && 0.0 <= value <= MAX_SAFE_INTEGER as real
  }

  predicate IsPart(text: string) {
    text != "" && '/' !in text && ':' !in text
  }

  function Segment(part: Part, position: Position): Result<string> {
    match part
    case NotFinite => Err(NotSafe(position))
    case Number(value) => if IsSafe(value) then Ok(Decimal(value.Floor)) else Err(NotSafe(position))
    case Text(text) =>
      if text == "" then Err(Empty(position))
      else if '/' in text || ':' in text then Err(HoldsSeparator(position))
      else Ok(text)
  }

  /** The segments of the parts from `index` on; the first part refused refuses them all. */
  function Segments(parts: seq<Part>, index: nat): Result<seq<string>>
    requires index <= |parts|
    decreases |parts| - index
  {
    if index == |parts| then Ok([])
    else match Segment(parts[index], PartAt(index + 1))
      case Err(error) => Err(error)
      case Ok(first) =>
        match Segments(parts, index + 1)
        case Err(error) => Err(error)
        case Ok(rest) => Ok([first] + rest)
  }

  function Join(segments: seq<string>): string {
    if segments == [] then ""
    else if |segments| == 1 then segments[0]
    else segments[0] + "/" + Join(segments[1..])
  }

  function Finalize(id: string): Result<string> {
    if AllDigits(id) then Err(DigitsOnly(id)) else Ok(id)
  }

  function JobId(prefix: string, parts: seq<Part>): Result<string> {
    match Segment(Text(prefix), Prefix)
    case Err(error) => Err(error)
    case Ok(head) =>
      match Segments(parts, 0)
      case Err(error) => Err(error)
      case Ok(rest) => Finalize(Join([head] + rest))
  }

  /** Another id made legal inside an id: `:` becomes `@`. */
  function Replaced(id: string): (embedded: string)
    ensures |embedded| == |id|
  {
    if id == "" then "" else [if id[0] == ':' then '@' else id[0]] + Replaced(id[1..])
  }

  function EmbedJobId(id: string, position: Position): Result<string> {
    if id == "" then Err(Empty(position)) else Ok(Replaced(id))
  }

  function DlqEntry(queue: string, originalId: string, createdAtMs: Part): Result<string> {
    match JobId("dlq", [Text(queue)])
    case Err(error) => Err(error)
    case Ok(head) =>
      match EmbedJobId(originalId, OriginalId)
      case Err(error) => Err(error)
      case Ok(embedded) =>
        match Segment(createdAtMs, CreatedAt)
        case Err(error) => Err(error)
        case Ok(created) => Finalize(Join([head, embedded, created]))
  }

  // ------------------------------------------------------------------
  // Splitting.

  /** The pieces of a text between its slashes. */
  function Split(s: string): (pieces: seq<string>)
    ensures pieces != []
  {
    if s == "" then [""]
    else
      var rest := Split(s[1..]);
      if s[0] == '/' then [""] + rest else [[s[0]] + rest[0]] + rest[1..]
  }

  lemma {:induction false} SplitOfPiece(s: string)
    requires '/' !in s
    ensures Split(s) == [s]
  {
    if s != "" {
      SplitOfPiece(s[1..]);
      assert [s[0]] + s[1..] == s;
    }
  }

  /** What one character more in front does to the pieces. */
  function Onto(c: char, pieces: seq<string>): seq<string>
    requires pieces != []
  {
    if c == '/' then [""] + pieces else [[c] + pieces[0]] + pieces[1..]
  }

  lemma SplitUnfolds(s: string)
    requires s != ""
    ensures Split(s) == Onto(s[0], Split(s[1..]))
  {
  }

  lemma OntoAppends(c: char, first: seq<string>, second: seq<string>)
    requires first != []
    ensures Onto(c, first) + second == Onto(c, first + second)
  {
    assert (first + second)[0] == first[0] && (first + second)[1..] == first[1..] + second;
  }

  lemma {:induction false} SplitOfJoined(a: string, b: string)
    ensures Split(a + "/" + b) == Split(a) + Split(b)
  {
    hide Split, Onto;
    var s := a + "/" + b;
    SplitUnfolds(s);
    if a == "" {
      assert s[0] == '/' && s[1..] == b;
      OntoSlash(Split(b));
    } else {
      assert s[0] == a[0] && s[1..] == a[1..] + "/" + b;
      SplitOfJoined(a[1..], b);
      SplitUnfolds(a);
      OntoAppends(a[0], Split(a[1..]), Split(b));
    }
  }

  lemma OntoSlash(pieces: seq<string>)
    requires pieces != []
    ensures Onto('/', pieces) == Split("") + pieces
  {
  }

  lemma {:induction false} JoinOfSplit(s: string)
    ensures Join(Split(s)) == s
  {
    if s != "" {
      JoinOfSplit(s[1..]);
      var rest := Split(s[1..]);
      if s[0] == '/' {
        assert ([""] + rest)[1..] == rest;
      } else {
        assert ([[s[0]] + rest[0]] + rest[1..])[1..] == rest[1..];
      }
      assert s == [s[0]] + s[1..];
    }
  }

  lemma {:induction false} SplitOfJoin(segments: seq<string>)
    requires segments != [] && forall i | 0 <= i < |segments| :: '/' !in segments[i]
    ensures Split(Join(segments)) == segments
  {
    if |segments| == 1 {
      SplitOfPiece(segments[0]);
    } else {
      SplitOfJoin(segments[1..]);
      SplitOfPiece(segments[0]);
      SplitOfJoined(segments[0], Join(segments[1..]));
    }
  }

  /** No piece of a text of digits, and no separator in one. */
  lemma SegmentIsAPart(part: Part, position: Position)
    requires Segment(part, position).Ok?
    ensures IsPart(Segment(part, position).value)
  {
    hide Decimal;
  }

  lemma {:induction false} SegmentsAreParts(parts: seq<Part>, index: nat)
    requires index <= |parts| && Segments(parts, index).Ok?
    ensures var segments := Segments(parts, index).value;
            && |segments| == |parts| - index
            && (forall i | 0 <= i < |segments| ::
                  && Segment(parts[index + i], PartAt(index + i + 1)) == Ok(segments[i]) && IsPart(segments[i]))
    decreases |parts| - index
  {
    hide Segment, IsPart;
    if index < |parts| {
      SegmentIsAPart(parts[index], PartAt(index + 1));
      SegmentsAreParts(parts, index + 1);
    }
  }

  lemma {:induction false} SegmentsSucceed(parts: seq<Part>, index: nat)
    requires index <= |parts|
    ensures Segments(parts, index).Ok? <==> forall i | index <= i < |parts| :: Segment(parts[i], PartAt(i + 1)).Ok?
    decreases |parts| - index
  {
    hide Segment;
    if index < |parts| {
      SegmentsSucceed(parts, index + 1);
    }
  }

  lemma {:induction false} JoinHoldsNoColon(segments: seq<string>)
    requires forall i | 0 <= i < |segments| :: ':' !in segments[i]
    ensures ':' !in Join(segments)
  {
    if |segments| > 1 {
      JoinHoldsNoColon(segments[1..]);
    }
  }

  // ------------------------------------------------------------------
  // The promises of an id.

  /** Splitting an id on `/` gives back its prefix and its parts as they print. */
  lemma AnIdGivesItsSegmentsBack(prefix: string, parts: seq<Part>)
    requires JobId(prefix, parts).Ok?
    ensures Split(JobId(prefix, parts).value) == [prefix] + Segments(parts, 0).value
    ensures ':' !in JobId(prefix, parts).value && !AllDigits(JobId(prefix, parts).value)
  {
    hide Split, Join, Segments;
    SegmentsAreParts(parts, 0);
    var segments := [prefix] + Segments(parts, 0).value;
    assert forall i | 0 <= i < |segments| :: IsPart(segments[i]);
    SplitOfJoin(segments);
    JoinHoldsNoColon(segments);
  }

  /** Two ids are equal exactly when their prefixes and their parts, as they print, are. */
  lemma IdsAreInjective(prefix: string, parts: seq<Part>, prefix': string, parts': seq<Part>)
    requires JobId(prefix, parts).Ok? && JobId(prefix', parts').Ok?
    ensures JobId(prefix, parts) == JobId(prefix', parts')
            <==> prefix == prefix' && Segments(parts, 0) == Segments(parts', 0)
  {
    hide Split, Join, Segments;
    AnIdGivesItsSegmentsBack(prefix, parts);
    AnIdGivesItsSegmentsBack(prefix', parts');
    var s, s' := [prefix] + Segments(parts, 0).value, [prefix'] + Segments(parts', 0).value;
    if JobId(prefix, parts) == JobId(prefix', parts') {
      assert s == s' && s[1..] == Segments(parts, 0).value && s'[1..] == Segments(parts', 0).value;
      assert s[0] == prefix && s'[0] == prefix';
    }
  }

  /** A part is printed so that only a number and the text of its digits are taken for each other. */
  lemma PartsPrintApart(a: Part, b: Part, position: Position)
    requires Segment(a, position).Ok? && Segment(b, position).Ok? && a.Text? == b.Text?
    ensures Segment(a, position) == Segment(b, position) <==> a == b
  {
    if a.Number? && Segment(a, position) == Segment(b, position) {
      DecimalIsInjective(a.value.Floor, b.value.Floor);
    }
  }

  /** A number a part may be: whole, not negative and exact. */
  predicate IsCount(n: nat, value: real) {
    value == n as real && n <= 9007199254740991
  }

  /**
   * A text that holds no separator prints as it is, and a whole number as the digits
   * that read back as it; everything else is refused where it stands, and told what
   * is wrong with it.
   */
  lemma APartPrintsAsItself(part: Part, position: Position)
    ensures match part
      case Text(text) =>
        Segment(part, position) == (if text == "" then Err(Empty(position))
                                    else if exists i :: 0 <= i < |text| && (text[i] == '/' || text[i] == ':')
                                    then Err(HoldsSeparator(position))
                                    else Ok(text))
      case Number(value) =>
        if exists n: nat :: IsCount(n, value)
        then
          && Segment(part, position).Ok?
          && var printed := Segment(part, position).value;
             AllDigits(printed) && Value(printed) as real == value && (|printed| > 1 ==> printed[0] != '0')
        else Segment(part, position) == Err(NotSafe(position))
      case NotFinite => Segment(part, position) == Err(NotSafe(position))
  {
    hide Decimal;
    if part.Number? && IsSafe(part.value) {
      var n: nat := part.value.Floor;
      assert IsCount(n, part.value);
      ValueOfDecimal(n);
      NoZeroInFront(n);
      ZeroIsOneDigit();
    }
  }

  lemma ZeroIsOneDigit()
    ensures |Decimal(0)| == 1
  {
  }

  lemma {:induction false} SegmentsRefuse(parts: seq<Part>, index: nat, i: nat)
    requires index <= i < |parts| && Segment(parts[i], PartAt(i + 1)).Err?
    requires forall k | index <= k < i :: Segment(parts[k], PartAt(k + 1)).Ok?
    ensures Segments(parts, index) == Err(Segment(parts[i], PartAt(i + 1)).error)
    decreases i - index
  {
    hide Segment;
    if index < i {
      SegmentsRefuse(parts, index + 1, i);
    }
  }

  /** An id is refused over the first part of it that is none, the prefix ahead of the others, with its own reason. */
  lemma TheFirstPartRefusedIsTold(prefix: string, parts: seq<Part>, i: nat)
    ensures !IsPart(prefix) ==>
              JobId(prefix, parts) == Err(if prefix == "" then Empty(Prefix) else HoldsSeparator(Prefix))
    ensures IsPart(prefix) && i < |parts| && Segment(parts[i], PartAt(i + 1)).Err?
            && (forall k | 0 <= k < i :: Segment(parts[k], PartAt(k + 1)).Ok?) ==>
              JobId(prefix, parts) == Err(Segment(parts[i], PartAt(i + 1)).error)
    ensures IsPart(prefix) && AllDigits(prefix) && parts == [] ==> JobId(prefix, parts) == Err(DigitsOnly(prefix))
  {
    hide Segments;
    if i < |parts| && Segment(parts[i], PartAt(i + 1)).Err?
       && (forall k | 0 <= k < i :: Segment(parts[k], PartAt(k + 1)).Ok?)
    {
      SegmentsRefuse(parts, 0, i);
    }
    if parts == [] {
      NoSegments();
    }
  }

  lemma NoSegments()
    ensures Segments([], 0) == Ok([])
  {
  }

  /**
   * An id is refused exactly over a part that is none, or over digits alone - which
   * takes a prefix of digits and no parts.
   */
  lemma AnIdIsRefusedExactlyWhen(prefix: string, parts: seq<Part>)
    ensures JobId(prefix, parts).Ok? <==>
            && IsPart(prefix) && (forall i | 0 <= i < |parts| :: Segment(parts[i], PartAt(i + 1)).Ok?)
            && !(parts == [] && AllDigits(prefix))
  {
    hide Segments;
    SegmentsSucceed(parts, 0);
    if IsPart(prefix) && Segments(parts, 0).Ok? {
      SegmentsAreParts(parts, 0);
      DigitsAreAlone(prefix, Segments(parts, 0).value);
    }
  }

  lemma DigitsAreAlone(prefix: string, rest: seq<string>)
    ensures AllDigits(Join([prefix] + rest)) <==> rest == [] && AllDigits(prefix)
  {
    if rest != [] {
      assert ([prefix] + rest)[1..] == rest;
      var id := prefix + "/" + Join(rest);
      assert Join([prefix] + rest) == id && id[|prefix|] == '/';
    }
  }

  // ------------------------------------------------------------------
  // The id of a dead-letter record.

  /** Two texts that differ at most in `:` where the other has `@`. */
  predicate SameButColons(a: string, b: string) {
    |a| == |b| && forall i | 0 <= i < |a| :: a[i] == b[i] || (a[i] in ":@" && b[i] in ":@")
  }

  lemma {:induction false} ReplacedAt(id: string, i: nat)
    requires i < |id|
    ensures Replaced(id)[i] == if id[i] == ':' then '@' else id[i]
  {
    if i > 0 {
      ReplacedAt(id[1..], i - 1);
    }
  }

  lemma ReplacedIsTheSameExactlyUpToColons(a: string, b: string)
    ensures Replaced(a) == Replaced(b) <==> SameButColons(a, b)
    ensures ':' !in Replaced(a)
  {
    hide Replaced;
    forall i | 0 <= i < |a|
      ensures Replaced(a)[i] == if a[i] == ':' then '@' else a[i]
    {
      ReplacedAt(a, i);
    }
    forall i | 0 <= i < |b|
      ensures Replaced(b)[i] == if b[i] == ':' then '@' else b[i]
    {
      ReplacedAt(b, i);
    }
    if SameButColons(a, b) {
      assert forall i | 0 <= i < |a| :: Replaced(a)[i] == Replaced(b)[i];
    }
  }

  /** What a record's id is made of, and that it is never refused over its digits. */
  lemma ADlqIdIs(queue: string, originalId: string, createdAtMs: Part)
    ensures DlqEntry(queue, originalId, createdAtMs).Ok? <==>
            IsPart(queue) && originalId != "" && Segment(createdAtMs, CreatedAt).Ok?
    ensures DlqEntry(queue, originalId, createdAtMs).Ok? ==>
              DlqEntry(queue, originalId, createdAtMs).value ==
              Join([Join(["dlq", queue]), Replaced(originalId), Segment(createdAtMs, CreatedAt).value])
  {
    hide Replaced;
    AnIdIsRefusedExactlyWhen("dlq", [Text(queue)]);
    assert [Text(queue)][0] == Text(queue);
    if IsPart(queue) {
      SegmentsAreParts([Text(queue)], 0);
      assert Segments([Text(queue)], 0).value == [queue];
      assert ["dlq"] + [queue] == ["dlq", queue];
      if originalId != "" && Segment(createdAtMs, CreatedAt).Ok? {
        DigitsAreAlone(Join(["dlq", queue]), [Replaced(originalId), Segment(createdAtMs, CreatedAt).value]);
        assert [Join(["dlq", queue])] + [Replaced(originalId), Segment(createdAtMs, CreatedAt).value]
               == [Join(["dlq", queue]), Replaced(originalId), Segment(createdAtMs, CreatedAt).value];
      }
    }
  }

  lemma DlqPieces(queue: string, embedded: string, created: string)
    requires '/' !in queue && '/' !in created
    ensures Split(Join([Join(["dlq", queue]), embedded, created])) == ["dlq", queue] + Split(embedded) + [created]
  {
    hide Split;
    var head := Join(["dlq", queue]);
    SplitOfJoin(["dlq", queue]);
    SplitOfJoined(embedded, created);
    SplitOfPiece(created);
    SplitOfJoined(head, embedded + "/" + created);
    JoinOfThree(head, embedded, created);
  }

  lemma JoinOfThree(a: string, b: string, c: string)
    ensures Join([a, b, c]) == a + "/" + (b + "/" + c)
  {
    var one, two, three := [c], [b, c], [a, b, c];
    assert two[1..] == one && three[1..] == two;
    assert Join(two) == b + "/" + Join(one) && Join(three) == a + "/" + Join(two);
  }

  /** Two records have one id exactly when queue and time are the same, and the original ids are up to `:` and `@`. */
  lemma DlqIdsAreEqualExactlyWhen(queue: string, id: string, at: Part, queue': string, id': string, at': Part)
    requires DlqEntry(queue, id, at).Ok? && DlqEntry(queue', id', at').Ok? && !at.Text? && !at'.Text?
    ensures DlqEntry(queue, id, at) == DlqEntry(queue', id', at')
            <==> queue == queue' && at == at' && SameButColons(id, id')
    ensures ':' !in DlqEntry(queue, id, at).value && !AllDigits(DlqEntry(queue, id, at).value)
  {
    hide Split, Join, Replaced, DlqEntry;
    ADlqIdIs(queue, id, at);
    ADlqIdIs(queue', id', at');
    ReplacedIsTheSameExactlyUpToColons(id, id');
    PartsPrintApart(at, at', CreatedAt);
    SegmentIsAPart(at, CreatedAt);
    SegmentIsAPart(at', CreatedAt);
    var created, created' := Segment(at, CreatedAt).value, Segment(at', CreatedAt).value;
    DlqPieces(queue, Replaced(id), created);
    DlqPieces(queue', Replaced(id'), created');
    if DlqEntry(queue, id, at) == DlqEntry(queue', id', at') {
      PiecesAgree(queue, Split(Replaced(id)), created, queue', Split(Replaced(id')), created');
      JoinOfSplit(Replaced(id));
      JoinOfSplit(Replaced(id'));
    }
    NoColonInDlq(queue, Replaced(id), created);
    DlqHead(queue);
    NotDigits(Join(["dlq", queue]), Replaced(id), created);
  }

  lemma PiecesAgree(q: string, e: seq<string>, c: string, q': string, e': seq<string>, c': string)
    requires ["dlq", q] + e + [c] == ["dlq", q'] + e' + [c']
    ensures q == q' && e == e' && c == c'
  {
    var a, a' := ["dlq", q] + e + [c], ["dlq", q'] + e' + [c'];
    assert a[1] == q && a'[1] == q';
    assert a[|a| - 1] == c && a'[|a'| - 1] == c';
    assert a[2..|a| - 1] == e && a'[2..|a'| - 1] == e';
  }

  lemma NoColonInDlq(queue: string, embedded: string, created: string)
    requires ':' !in queue && ':' !in embedded && ':' !in created
    ensures ':' !in Join([Join(["dlq", queue]), embedded, created])
  {
    JoinHoldsNoColon(["dlq", queue]);
    JoinHoldsNoColon([Join(["dlq", queue]), embedded, created]);
  }

  lemma NotDigits(head: string, embedded: string, created: string)
    requires exists i :: 0 <= i < |head| && !('0' <= head[i] <= '9')
    ensures !AllDigits(Join([head, embedded, created]))
  {
    JoinOfThree(head, embedded, created);
    var i :| 0 <= i < |head| && !('0' <= head[i] <= '9');
    assert (head + "/" + (embedded + "/" + created))[i] == head[i];
  }

  lemma DlqHead(queue: string)
    ensures var head := Join(["dlq", queue]); |head| > 0 && head[0] == 'd'
  {
    assert ["dlq", queue][1..] == [queue];
  }
}
