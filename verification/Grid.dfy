/** The part grid that client and server share, and the Content-Range header that carries it. */
module Grid {
  import opened Common
  import opened Sums

  /** One confirmed part row: an inclusive byte range, its length and its digest. */
  datatype Part = Part(start: int, end: int, size: int, sha: Digest)

  function PartSize(part: Part): int {
    part.size
  }

  /** ceil(size / chunk) */
  function PartCount(size: int, chunk: int): int
    requires chunk > 0
  {
    (size + chunk - 1) / chunk
  }

  function SlotEnd(size: int, chunk: int, index: int): int {
    Min(size - 1, index * chunk + chunk - 1)
  }

  function SlotSize(size: int, chunk: int, index: int): int {
    SlotEnd(size, chunk, index) - index * chunk + 1
  }

  /** The range is the slot that the grid gives to this index, inside the file. */
  ghost predicate OnSlot(part: Part, size: int, chunk: int, index: int) {
    && chunk > 0
    && 0 <= index
    && index * chunk < size
    && part.start == index * chunk
    && part.end == SlotEnd(size, chunk, index)
    && part.size == SlotSize(size, chunk, index)
  }

  ghost predicate GridRows(parts: map<int, Part>, size: int, chunk: int) {
    forall index :: index in parts ==> OnSlot(parts[index], size, chunk, index)
  }

  ghost predicate Full(parts: map<int, Part>, size: int, chunk: int) {
    && chunk > 0
    && (forall index :: 0 <= index < PartCount(size, chunk) ==> index in parts)
  }

  lemma InGrid(size: int, chunk: int, index: int)
    requires chunk > 0
    ensures index < PartCount(size, chunk) <==> index * chunk < size
  {
    var count := PartCount(size, chunk);
    assert count * chunk <= size + chunk - 1 < count * chunk + chunk;
    MultiplesInOrder(chunk, index, count);
  }

  lemma MultiplesInOrder(chunk: int, i: int, j: int)
    requires chunk > 0
    ensures i < j ==> i * chunk + chunk <= j * chunk
    ensures i >= j ==> i * chunk >= j * chunk
  {
    var d := j - i;
    assert j * chunk - i * chunk == d * chunk;
    MultipleSign(d, chunk);
  }

  lemma MultipleSign(d: int, chunk: int)
    requires chunk > 0
    ensures d >= 1 ==> d * chunk >= chunk
    ensures d <= 0 ==> d * chunk <= 0
  {
  }

  lemma SlotIsInside(size: int, chunk: int, index: int)
    requires chunk > 0 && 0 <= index && index * chunk < size
    ensures 0 <= index * chunk <= SlotEnd(size, chunk, index) < size
    ensures 0 < SlotSize(size, chunk, index) <= chunk
    ensures Min((index + 1) * chunk, size) - index * chunk == SlotSize(size, chunk, index)
  {
    assert (index + 1) * chunk == index * chunk + chunk;
  }

  /** The bytes of the first n slots. */
  function GridBytes(size: int, chunk: int, n: int): int {
    Min(n * chunk, size)
  }

  lemma GridBytesStep(size: int, chunk: int, index: int)
    requires chunk > 0 && 0 <= index && index * chunk < size
    ensures GridBytes(size, chunk, index + 1) == GridBytes(size, chunk, index) + SlotSize(size, chunk, index)
    ensures 0 < SlotSize(size, chunk, index) <= chunk
    ensures GridBytes(size, chunk, index) == index * chunk
    ensures GridBytes(size, chunk, index + 1) == SlotEnd(size, chunk, index) + 1
  {
    assert (index + 1) * chunk == index * chunk + chunk;
  }

  /** The bytes confirmed below the first n slots never exceed those slots, and reach them only when all are there. */
  lemma {:induction false} GridSum(parts: map<int, Part>, size: int, chunk: int, n: nat)
    requires chunk > 0 && size > 0
    requires n > 0 ==> (n - 1) * chunk < size
    requires GridRows(parts, size, chunk)
    requires forall index :: index in parts ==> index < n
    ensures Sum(parts, PartSize) <= GridBytes(size, chunk, n)
    ensures Sum(parts, PartSize) == GridBytes(size, chunk, n) <==> (forall index :: 0 <= index < n ==> index in parts)
    decreases n
  {
    if n == 0 {
      assert forall index :: index in parts ==> OnSlot(parts[index], size, chunk, index);
      assert parts == map[];
    } else {
      var last := n - 1;
      GridBytesStep(size, chunk, last);
      EarlierStart(size, chunk, last);
      var rest := parts - {last};
      GridSum(rest, size, chunk, last);
      if last in parts {
        Without(parts, PartSize, last);
        assert forall index :: 0 <= index < n ==> (index in parts <==> index == last || index in rest);
      } else {
        assert rest == parts;
      }
    }
  }

  lemma EarlierStart(size: int, chunk: int, index: int)
    requires chunk > 0 && index * chunk < size
    ensures (index - 1) * chunk < size
  {
    assert (index - 1) * chunk == index * chunk - chunk;
  }

  /** The rows cut the file into disjoint ranges of the recorded lengths that leave no byte out. */
  ghost predicate Tiles(parts: map<int, Part>, size: int) {
    && (forall i :: i in parts ==> 0 <= parts[i].start <= parts[i].end < size && parts[i].size == parts[i].end - parts[i].start + 1)
    && (forall i, j :: i in parts && j in parts && i != j ==> parts[i].end < parts[j].start || parts[j].end < parts[i].start)
    && (forall b :: 0 <= b < size ==> Covered(parts, b))
  }

  ghost predicate Covered(parts: map<int, Part>, b: int) {
    exists i :: i in parts && parts[i].start <= b <= parts[i].end
  }

  /**
   * Grid theorem. For rows on the grid, three descriptions of a finished upload agree: the rows tile the file
   * (what the contiguity scan decides), the confirmed bytes equal the size, every index of the grid is present.
   */
  lemma GridTheorem(parts: map<int, Part>, size: int, chunk: int)
    requires chunk > 0 && size > 0
    requires GridRows(parts, size, chunk)
    ensures Tiles(parts, size) <==> Full(parts, size, chunk)
    ensures Sum(parts, PartSize) == size <==> Full(parts, size, chunk)
    ensures Full(parts, size, chunk) <==> (forall i :: i in parts <==> 0 <= i < PartCount(size, chunk))
    ensures Sum(parts, PartSize) <= size
  {
    var count := PartCount(size, chunk);
    forall index | index in parts
      ensures 0 <= index < count
    {
      InGrid(size, chunk, index);
    }
    InGrid(size, chunk, count);
    InGrid(size, chunk, count - 1);
    GridSum(parts, size, chunk, count);
    if Full(parts, size, chunk) {
      FullTiles(parts, size, chunk);
    }
    if Tiles(parts, size) {
      TilesFull(parts, size, chunk);
    }
  }

  /** Slots of different indexes do not meet. */
  lemma SlotsDisjoint(chunk: int, i: int, j: int)
    requires chunk > 0 && i < j
    ensures i * chunk + chunk <= j * chunk
  {
    MultiplesInOrder(chunk, i, j);
  }

  lemma FullTiles(parts: map<int, Part>, size: int, chunk: int)
    requires chunk > 0 && size > 0
    requires GridRows(parts, size, chunk) && Full(parts, size, chunk)
    ensures Tiles(parts, size)
  {
    forall i | i in parts
      ensures 0 <= parts[i].start <= parts[i].end < size && parts[i].size == parts[i].end - parts[i].start + 1
    {
      SlotIsInside(size, chunk, i);
    }
    forall i, j | i in parts && j in parts && i != j
      ensures parts[i].end < parts[j].start || parts[j].end < parts[i].start
    {
      if i < j { SlotsDisjoint(chunk, i, j); } else { SlotsDisjoint(chunk, j, i); }
    }
    forall b | 0 <= b < size
      ensures Covered(parts, b)
    {
      FullCovers(parts, size, chunk, b);
    }
  }

  lemma FullCovers(parts: map<int, Part>, size: int, chunk: int, b: int)
    requires chunk > 0 && 0 <= b < size
    requires GridRows(parts, size, chunk) && Full(parts, size, chunk)
    ensures b / chunk in parts && parts[b / chunk].start <= b <= parts[b / chunk].end
    ensures Covered(parts, b)
  {
    var i := b / chunk;
    DivisionBounds(b, chunk);
    InGrid(size, chunk, i);
    assert OnSlot(parts[i], size, chunk, i);
  }

  lemma DivisionBounds(b: int, chunk: int)
    requires chunk > 0 && 0 <= b
    ensures 0 <= b / chunk
    ensures (b / chunk) * chunk <= b < (b / chunk) * chunk + chunk
  {
  }

  lemma TilesFull(parts: map<int, Part>, size: int, chunk: int)
    requires chunk > 0 && size > 0
    requires GridRows(parts, size, chunk) && Tiles(parts, size)
    ensures Full(parts, size, chunk)
  {
    forall index | 0 <= index < PartCount(size, chunk)
      ensures index in parts
    {
      InGrid(size, chunk, index);
      assert Covered(parts, index * chunk);
      var i :| i in parts && parts[i].start <= index * chunk <= parts[i].end;
      if i < index {
        SlotsDisjoint(chunk, i, index);
      } else if index < i {
        SlotsDisjoint(chunk, index, i);
      }
    }
  }

  // ---- Content-Range ----

  datatype Range = Range(start: int, end: int, size: int)

  datatype RangeError = InvalidIndex | InvalidHeader | OutsideFile | WrongSlot | EmptyRange

  predicate IsDigit(c: char) {
    '0' <= c <= '9'
  }

  /** Length of the longest prefix of decimal digits. */
  function DigitRun(s: string): (n: nat)
    ensures n <= |s|
    ensures forall k :: 0 <= k < n ==> IsDigit(s[k])
    ensures n < |s| ==> !IsDigit(s[n])
  {
    if s == "" || !IsDigit(s[0]) then 0 else 1 + DigitRun(s[1..])
  }

  function DigitValue(c: char): (n: nat)
    requires IsDigit(c)
    ensures n < 10
  {
    c as int - '0' as int
  }

  function DecimalValue(s: string): nat
    requires forall k :: 0 <= k < |s| ==> IsDigit(s[k])
  {
    if s == "" then 0 else 10 * DecimalValue(s[..|s| - 1]) + DigitValue(s[|s| - 1])
  }

  /** One group of the header pattern, [0-9]+, and what follows it. */
  function MatchNumber(s: string): Option<(nat, string)> {
    var n := DigitRun(s);
    if n == 0 then None else Some((DecimalValue(s[..n]), s[n..]))
  }

  /** The match of "bytes N-N/N" over the whole header. */
  function MatchContentRange(value: string): Option<(nat, nat, nat)> {
    if |value| < 6 || value[..6] != "bytes " then None else MatchNumbers(value[6..])
  }

  function MatchNumbers(s: string): Option<(nat, nat, nat)> {
    match MatchNumber(s)
    case None => None
    case Some((start, rest)) =>
      if rest == "" || rest[0] != '-' then None
      else
        match MatchNumber(rest[1..])
        case None => None
        case Some((end, tail)) =>
          if tail == "" || tail[0] != '/' then None
          else
            match MatchNumber(tail[1..])
            case None => None
            case Some((total, last)) => if last != "" then None else Some((start, end, total))
  }

  /** The checks made on the three numbers of a header that matched. */
  function CheckRange(start: nat, end: nat, total: nat, expectedTotal: int, partIndex: int, chunkSize: int): Result<Range, RangeError>
    requires 0 <= partIndex && 0 < chunkSize
  {
    var expectedStart := partIndex * chunkSize;
    if expectedStart >= expectedTotal then Err(OutsideFile)
    else
      var expectedEnd := Min(expectedTotal - 1, expectedStart + chunkSize - 1);
      if total != expectedTotal || start != expectedStart || end != expectedEnd then Err(WrongSlot)
      else
        var size := end - start + 1;
        if size <= 0 then Err(EmptyRange) else Ok(Range(start, end, size))
  }

  function ParseContentRange(value: string, expectedTotal: int, partIndex: int, chunkSize: int): Result<Range, RangeError> {
    if partIndex < 0 || chunkSize <= 0 then Err(InvalidIndex)
    else
      match MatchContentRange(value)
      case None => Err(InvalidHeader)
      case Some((start, end, total)) => CheckRange(start, end, total, expectedTotal, partIndex, chunkSize)
  }

  function Decimal(n: nat): string {
    if n < 10 then [('0' as int + n) as char]
    else Decimal(n / 10) + [('0' as int + n % 10) as char]
  }

  /** The header as the browser writes it. */
  function ContentRange(start: nat, end: nat, total: nat): string {
    "bytes " + (Decimal(start) + ("-" + (Decimal(end) + ("/" + Decimal(total)))))
  }

  lemma {:induction false} DecimalRoundTrip(n: nat)
    ensures |Decimal(n)| > 0
    ensures forall k :: 0 <= k < |Decimal(n)| ==> IsDigit(Decimal(n)[k])
    ensures DecimalValue(Decimal(n)) == n
  {
    if n < 10 {
      assert Decimal(n)[..0] == "";
    } else {
      DecimalRoundTrip(n / 10);
      assert Decimal(n)[..|Decimal(n)| - 1] == Decimal(n / 10);
    }
  }

  lemma {:induction false} RunStops(digits: string, rest: string)
    requires forall k :: 0 <= k < |digits| ==> IsDigit(digits[k])
    requires rest == "" || !IsDigit(rest[0])
    ensures DigitRun(digits + rest) == |digits|
  {
    if digits == "" {
      assert digits + rest == rest;
    } else {
      RunStops(digits[1..], rest);
      assert (digits + rest)[1..] == digits[1..] + rest;
    }
  }

  lemma HeaderRoundTrip(start: nat, end: nat, total: nat)
    ensures MatchContentRange(ContentRange(start, end, total)) == Some((start, end, total))
  {
    DecimalRoundTrip(start);
    DecimalRoundTrip(end);
    DecimalRoundTrip(total);
    SpelledIsMatched(Decimal(start), Decimal(end), Decimal(total));
    var numbers := Decimal(start) + ("-" + (Decimal(end) + ("/" + Decimal(total))));
    assert ContentRange(start, end, total)[..6] == "bytes ";
    assert ContentRange(start, end, total)[6..] == numbers;
  }

  /** One or more decimal digits. */
  predicate Digits(s: string) {
    s != "" && forall k :: 0 <= k < |s| ==> IsDigit(s[k])
  }

  /** The text spells these numbers: digits, "-", digits, "/", digits, and nothing else. */
  ghost predicate SpellsNumbers(s: string, start: int, end: int, total: int) {
    exists a, b, c :: Digits(a) && Digits(b) && Digits(c) && s == a + ("-" + (b + ("/" + c)))
                      && DecimalValue(a) == start && DecimalValue(b) == end && DecimalValue(c) == total
  }

  ghost predicate Spells(value: string, start: int, end: int, total: int) {
    |value| >= 6 && value[..6] == "bytes " && SpellsNumbers(value[6..], start, end, total)
  }

  lemma NumberIsMatched(digits: string, rest: string)
    requires Digits(digits) && (rest == "" || !IsDigit(rest[0]))
    ensures MatchNumber(digits + rest) == Some((DecimalValue(digits), rest))
  {
    RunStops(digits, rest);
    assert (digits + rest)[..|digits|] == digits;
    assert (digits + rest)[|digits|..] == rest;
  }

  lemma SpelledIsMatched(a: string, b: string, c: string)
    requires Digits(a) && Digits(b) && Digits(c)
    ensures MatchNumbers(a + ("-" + (b + ("/" + c)))) == Some((DecimalValue(a), DecimalValue(b), DecimalValue(c)))
  {
    var tail := "/" + c;
    var rest := "-" + (b + tail);
    NumberIsMatched(a, rest);
    assert rest[1..] == b + tail;
    NumberIsMatched(b, tail);
    assert tail[1..] == c + "" == c;
    NumberIsMatched(c, "");
  }

  lemma MatchedNumber(s: string) returns (digits: string)
    requires MatchNumber(s).Some?
    ensures Digits(digits) && s == digits + MatchNumber(s).value.1 && DecimalValue(digits) == MatchNumber(s).value.0
  {
    digits := s[..DigitRun(s)];
  }

  lemma Behind(sign: char, rest: string, tail: string)
    requires rest != "" && rest[0] == sign && rest[1..] == tail
    ensures rest == [sign] + tail
  {
  }

  lemma MatchedIsSpelled(s: string) returns (a: string, b: string, c: string)
    requires MatchNumbers(s).Some?
    ensures Digits(a) && Digits(b) && Digits(c) && s == a + ("-" + (b + ("/" + c)))
    ensures MatchNumbers(s).value == (DecimalValue(a), DecimalValue(b), DecimalValue(c))
  {
    a := MatchedNumber(s);
    var rest := MatchNumber(s).value.1;
    b := MatchedNumber(rest[1..]);
    var tail := MatchNumber(rest[1..]).value.1;
    c := MatchedNumber(tail[1..]);
    assert tail[1..] == c + "" == c;
    Behind('/', tail, c);
    Behind('-', rest, b + tail);
  }

  lemma SpelledMeansMatched(s: string, start: nat, end: nat, total: nat)
    requires SpellsNumbers(s, start, end, total)
    ensures MatchNumbers(s) == Some((start, end, total))
  {
    var a, b, c :| Digits(a) && Digits(b) && Digits(c) && s == a + ("-" + (b + ("/" + c)))
                   && DecimalValue(a) == start && DecimalValue(b) == end && DecimalValue(c) == total;
    SpelledIsMatched(a, b, c);
  }

  lemma MatchedMeansSpelled(s: string, start: nat, end: nat, total: nat)
    requires MatchNumbers(s) == Some((start, end, total))
    ensures SpellsNumbers(s, start, end, total)
  {
    var a, b, c := MatchedIsSpelled(s);
  }

  /** The pattern match finds exactly the spellings of the header. */
  lemma HeaderGrammar(value: string, start: nat, end: nat, total: nat)
    ensures MatchContentRange(value) == Some((start, end, total)) <==> Spells(value, start, end, total)
  {
    if |value| >= 6 && value[..6] == "bytes " {
      if MatchNumbers(value[6..]) == Some((start, end, total)) {
        MatchedMeansSpelled(value[6..], start, end, total);
      }
      if SpellsNumbers(value[6..], start, end, total) {
        SpelledMeansMatched(value[6..], start, end, total);
      }
    }
  }

  /** The header spells the first and the last byte of the slot of this index, and the size of the file. */
  ghost predicate NamesSlot(value: string, size: int, index: int, chunk: int) {
    0 < chunk && 0 <= index && index * chunk < size
    && Spells(value, index * chunk, Min(size, index * chunk + chunk) - 1, size)
  }

  /** The server lets a header through exactly when it names the slot of the index, in whatever spelling. */
  lemma AcceptedExactly(value: string, size: int, index: int, chunk: int)
    ensures ParseContentRange(value, size, index, chunk).Ok? <==> NamesSlot(value, size, index, chunk)
    ensures ParseContentRange(value, size, index, chunk).Ok? ==>
              ParseContentRange(value, size, index, chunk).value
              == Range(index * chunk, SlotEnd(size, chunk, index), SlotSize(size, chunk, index))
  {
    if NamesSlot(value, size, index, chunk) {
      SlotIsInside(size, chunk, index);
      HeaderGrammar(value, index * chunk, SlotEnd(size, chunk, index), size);
      CheckedExactly(index * chunk, SlotEnd(size, chunk, index), size, size, index, chunk);
    }
    if ParseContentRange(value, size, index, chunk).Ok? {
      AcceptedNamesSlot(value, size, index, chunk);
    }
  }

  lemma AcceptedNamesSlot(value: string, size: int, index: int, chunk: int)
    requires ParseContentRange(value, size, index, chunk).Ok?
    ensures NamesSlot(value, size, index, chunk)
    ensures ParseContentRange(value, size, index, chunk).value
         == Range(index * chunk, SlotEnd(size, chunk, index), SlotSize(size, chunk, index))
  {
    var (start, end, total) := MatchContentRange(value).value;
    CheckedExactly(start, end, total, size, index, chunk);
    HeaderGrammar(value, start, end, total);
  }

  /** The numbers that pass the checks are those of the slot. */
  lemma CheckedExactly(start: nat, end: nat, total: nat, size: int, index: int, chunk: int)
    requires 0 <= index && 0 < chunk
    ensures CheckRange(start, end, total, size, index, chunk).Ok?
       <==> total == size && OnSlot(Part(start, end, end - start + 1, ""), size, chunk, index)
    ensures CheckRange(start, end, total, size, index, chunk).Ok?
        ==> CheckRange(start, end, total, size, index, chunk).value == Range(start, end, SlotSize(size, chunk, index))
  {
    if index * chunk < size {
      SlotIsInside(size, chunk, index);
    }
  }

  /**
   * The server accepts the range that a client announces for an index exactly when it is the slot of that index,
   * and then reports that slot.
   */
  lemma ServerAcceptsExactlyTheSlot(start: nat, end: nat, total: nat, size: int, index: int, chunk: int)
    ensures ParseContentRange(ContentRange(start, end, total), size, index, chunk).Ok?
       <==> total == size && OnSlot(Part(start, end, end - start + 1, ""), size, chunk, index)
    ensures ParseContentRange(ContentRange(start, end, total), size, index, chunk).Ok?
        ==> ParseContentRange(ContentRange(start, end, total), size, index, chunk).value == Range(start, end, SlotSize(size, chunk, index))
  {
    if 0 <= index && 0 < chunk {
      HeaderRoundTrip(start, end, total);
      CheckedExactly(start, end, total, size, index, chunk);
    }
  }

  /** Every header the server lets through, in whatever spelling, names the slot of its index. */
  lemma AcceptedRangeIsTheSlot(value: string, size: int, index: int, chunk: int, sha: Digest)
    requires ParseContentRange(value, size, index, chunk).Ok?
    ensures var range := ParseContentRange(value, size, index, chunk).value;
            OnSlot(Part(range.start, range.end, range.size, sha), size, chunk, index)
  {
    var (start, end, total) := MatchContentRange(value).value;
    CheckedExactly(start, end, total, size, index, chunk);
  }

  // ---- The client's side of the grid ----

  /** The slice bounds with which the browser cuts the part out of the file. */
  function ClientSlice(size: int, chunk: int, index: int): (int, int) {
    var start := index * chunk;
    (start, Min(size, start + chunk))
  }

  /** The numbers of the slice pass the server's checks. */
  lemma ClientSliceIsTheSlot(size: int, chunk: int, index: int)
    requires chunk > 0 && 0 <= index < PartCount(size, chunk)
    ensures var (start, endExclusive) := ClientSlice(size, chunk, index);
            0 <= start < endExclusive <= size
            && CheckRange(start, endExclusive - 1, size, size, index, chunk) == Ok(Range(start, endExclusive - 1, endExclusive - start))
  {
    InGrid(size, chunk, index);
    SlotIsInside(size, chunk, index);
  }

  /** The slice the client sends for any index of its own part count is accepted, and is the server's slot. */
  lemma ClientSliceIsAccepted(size: int, chunk: int, index: int)
    requires chunk > 0 && 0 <= index < PartCount(size, chunk)
    ensures var (start, endExclusive) := ClientSlice(size, chunk, index);
            0 <= start < endExclusive <= size
            && ParseContentRange(ContentRange(start, endExclusive - 1, size), size, index, chunk)
               == Ok(Range(start, endExclusive - 1, endExclusive - start))
  {
    ClientSliceIsTheSlot(size, chunk, index);
    var (start, endExclusive) := ClientSlice(size, chunk, index);
    HeaderRoundTrip(start, endExclusive - 1, size);
  }

  /** In other words, the header of that slice names the slot. */
  lemma ClientSliceNamesSlot(size: int, chunk: int, index: int)
    requires chunk > 0 && 0 <= index < PartCount(size, chunk)
    ensures var (start, endExclusive) := ClientSlice(size, chunk, index);
            0 <= start < endExclusive && NamesSlot(ContentRange(start, endExclusive - 1, size), size, index, chunk)
  {
    ClientSliceIsTheSlot(size, chunk, index);
    InGrid(size, chunk, index);
    WrittenSpells(index * chunk, Min(size, index * chunk + chunk) - 1, size);
  }

  lemma WrittenSpells(start: nat, end: nat, total: nat)
    ensures Spells(ContentRange(start, end, total), start, end, total)
  {
    HeaderRoundTrip(start, end, total);
    HeaderGrammar(ContentRange(start, end, total), start, end, total);
  }

  /** The byte count that the browser derives from a list of part indexes. */
  function ConfirmedPartBytes(size: int, chunk: int, indexes: seq<int>): int {
    if indexes == [] then 0
    else
      var last := indexes[|indexes| - 1];
      ConfirmedPartBytes(size, chunk, indexes[..|indexes| - 1]) + Max(0, Min(chunk, size - last * chunk))
  }

  /** The client's byte total over the server's part list equals the server's own sum over its rows. */
  lemma {:induction false} ClientAndServerBytesAgree(parts: map<int, Part>, size: int, chunk: int, indexes: seq<int>)
    requires chunk > 0 && size > 0
    requires GridRows(parts, size, chunk)
    requires forall k :: k in parts <==> k in indexes
    requires forall a, b :: 0 <= a < b < |indexes| ==> indexes[a] != indexes[b]
    ensures ConfirmedPartBytes(size, chunk, indexes) == Sum(parts, PartSize)
    decreases |indexes|
  {
    if indexes == [] {
      assert forall k :: k in parts ==> k in indexes;
      assert parts == map[];
    } else {
      var last := indexes[|indexes| - 1];
      var rest := indexes[..|indexes| - 1];
      assert indexes == rest + [last];
      assert last !in rest;
      Without(parts, PartSize, last);
      ClientAndServerBytesAgree(parts - {last}, size, chunk, rest);
      LastSliceSize(size, chunk, last);
    }
  }

  lemma LastSliceSize(size: int, chunk: int, index: int)
    requires chunk > 0 && 0 <= index && index * chunk < size
    ensures Max(0, Min(chunk, size - index * chunk)) == SlotSize(size, chunk, index)
  {
  }

  /** The first index of the grid that is not confirmed; none exactly when the server's rows are full. */
  method NextMissingPart(size: int, chunk: int, confirmed: seq<int>) returns (missing: Option<int>)
    requires chunk > 0
    ensures missing.None? <==> forall i :: 0 <= i < PartCount(size, chunk) ==> i in confirmed
    ensures missing.Some? ==>
              && 0 <= missing.value < PartCount(size, chunk)
              && missing.value !in confirmed
              && forall i :: 0 <= i < missing.value ==> i in confirmed
  {
    var count := PartCount(size, chunk);
    var index := 0;
    while index < count
      invariant 0 <= index
      invariant forall i :: 0 <= i < index ==> i in confirmed
    {
      if index !in confirmed {
        return Some(index);
      }
      index := index + 1;
    }
    missing := None;
  }
}
