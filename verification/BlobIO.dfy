/** Binary blobs between the daemon and a plugin process: a size header, then pages
    that each carry their own length; and reassembly on the other side. */
module BlobIO {
  type byte = x: int | 0 <= x < 256

  const PAGE_SIZE: nat := 16384

  /** The length that the data stream writes for a null array. */
  const NULL_LENGTH: nat := 0xFFFF_FFFF

  /** Sizes are signed 32-bit integers. */
  const MAX_SIZE: nat := 0x7FFF_FFFF

  function Big16(n: nat): (s: seq<byte>)
    requires n <= 0xFFFF
    ensures |s| == 2 && Value16(s) == n
  {
    [n / 256, n % 256]
  }

  function Value16(s: seq<byte>): (n: nat)
    requires |s| == 2
    ensures n <= 0xFFFF
  {
    var high: int, low: int := s[0], s[1];
    high * 256 + low
  }

  function Big32(n: nat): (s: seq<byte>)
    requires n <= 0xFFFF_FFFF
    ensures |s| == 4 && Value32(s) == n
  {
    var s := Big16(n / 0x1_0000) + Big16(n % 0x1_0000);
    assert s[..2] == Big16(n / 0x1_0000) && s[2..] == Big16(n % 0x1_0000);
    s
  }

  function Value32(s: seq<byte>): (n: nat)
    requires |s| == 4
    ensures n <= 0xFFFF_FFFF
  {
    Value16(s[..2]) * 0x1_0000 + Value16(s[2..])
  }

  function Framed(page: seq<byte>): seq<byte>
    requires |page| <= MAX_SIZE
  {
    Big32(|page|) + page
  }

  function FirstPage(data: seq<byte>): seq<byte> {
    if |data| <= PAGE_SIZE then data else data[..PAGE_SIZE]
  }

  function Pages(data: seq<byte>): (pages: seq<seq<byte>>)
    ensures forall i :: 0 <= i < |pages| ==> |pages[i]| <= PAGE_SIZE
  {
    if data == [] then [] else [FirstPage(data)] + Pages(data[|FirstPage(data)|..])
  }

  function FramedAll(pages: seq<seq<byte>>): seq<byte>
    requires forall i :: 0 <= i < |pages| ==> |pages[i]| <= PAGE_SIZE
  {
    if pages == [] then [] else Framed(pages[0]) + FramedAll(pages[1..])
  }

  /** Everything that is sent for one blob. */
  function Sent(data: seq<byte>): seq<byte>
    requires |data| <= MAX_SIZE
  {
    Big32(|data|) + FramedAll(Pages(data))
  }

  // The receiving side.

  datatype Signal = DataReceived(data: seq<byte>) | Error

  datatype Receiver = Receiver(
    channel: seq<byte>,
    blobBuffer: seq<byte>,
    blobSize: int,
    isReading: bool,
    signals: seq<Signal>)

  /** Reads one length-prefixed array; a short read uses up the channel and gives
      the empty array. */
  function FractionOf(channel: seq<byte>): seq<byte> {
    if |channel| < 4 then []
    else
      var n := Value32(channel[..4]);
      if n == NULL_LENGTH || |channel| - 4 < n then [] else channel[4..4 + n]
  }

  function RestOf(channel: seq<byte>): seq<byte> {
    if |channel| < 4 then []
    else
      var n := Value32(channel[..4]);
      if n == NULL_LENGTH then channel[4..]
      else if |channel| - 4 < n then [] else channel[4 + n..]
  }

  function ReadBlob(r: Receiver): Receiver {
    var fraction := FractionOf(r.channel);
    var t := r.(channel := RestOf(r.channel), blobBuffer := r.blobBuffer + fraction);
    if fraction == [] && |t.blobBuffer| < t.blobSize then
      t.(isReading := false, signals := t.signals + [Error])
    else if |t.blobBuffer| == t.blobSize then
      t.(isReading := t.isReading && t.blobSize <= PAGE_SIZE, signals := t.signals + [DataReceived(t.blobBuffer)])
    else t
  }

  function Expecting(r: Receiver, size: int): Receiver {
    r.(blobBuffer := [], blobSize := size, isReading := r.isReading || size > PAGE_SIZE)
  }

  function ReceiveData(r: Receiver, size: int): Receiver {
    ReadBlob(Expecting(r, size))
  }

  function Reads(r: Receiver, n: nat): Receiver
    decreases n
  {
    if n == 0 then r else Reads(ReadBlob(r), n - 1)
  }

  /** The owner of the channel reads the size header itself. */
  function HeaderRead(r: Receiver): Receiver
    requires |r.channel| >= 4
  {
    r.(channel := r.channel[4..])
  }

  lemma FramedFrom(written: seq<byte>, pages: seq<seq<byte>>, i: nat)
    requires i < |pages| && forall j :: 0 <= j < |pages| ==> |pages[j]| <= PAGE_SIZE
    ensures written + FramedAll(pages[i..]) == (written + Framed(pages[i])) + FramedAll(pages[i + 1..])
  {
    assert pages[i..][1..] == pages[i + 1..];
  }

  class BlobIOHandler {
    var readChannel: seq<byte>
    var writeChannel: seq<byte>
    var blobBuffer: seq<byte>
    var blobSize: int
    var isReading: bool
    ghost var signals: seq<Signal>

    ghost function State(): Receiver
      reads this
    {
      Receiver(readChannel, blobBuffer, blobSize, isReading, signals)
    }

    constructor (channel: seq<byte>)
      ensures State() == Receiver(channel, [], -1, false, []) && writeChannel == []
    {
      readChannel, writeChannel, blobBuffer, blobSize, isReading, signals := channel, [], [], -1, false, [];
    }

    method PageByteArray(ba: seq<byte>) returns (dataPages: seq<seq<byte>>)
      ensures dataPages == Pages(ba)
    {
      dataPages := [];
      var pos := 0;
      while pos < |ba|
        invariant pos <= |ba|
        invariant Pages(ba) == dataPages + Pages(ba[pos..])
      {
        var end := if |ba| - pos <= PAGE_SIZE then |ba| else pos + PAGE_SIZE;
        var page := ba[pos..end];
        assert page == FirstPage(ba[pos..]);
        assert ba[pos..][|page|..] == ba[end..];
        dataPages := dataPages + [page];
        pos := end;
      }
    }

    method SendData(ba: seq<byte>)
      requires |ba| <= MAX_SIZE
      modifies this`writeChannel
      ensures writeChannel == old(writeChannel) + Sent(ba)
    {
      writeChannel := writeChannel + Big32(|ba|);
      var pages := PageByteArray(ba);
      for i := 0 to |pages|
        invariant writeChannel + FramedAll(pages[i..]) == old(writeChannel) + Sent(ba)
      {
        FramedFrom(writeChannel, pages, i);
        writeChannel := writeChannel + Framed(pages[i]);
      }
    }

    /** Notification is switched on only if there is more than one page. */
    method ReceiveBlob(expectedDataSize: int)
      modifies this
      ensures State() == ReceiveData(old(State()), expectedDataSize) && writeChannel == old(writeChannel)
    {
      blobBuffer := [];
      blobSize := expectedDataSize;
      if blobSize > PAGE_SIZE {
        isReading := true;
      }
      ReadOne();
    }

    method ReadOne()
      modifies this
      ensures State() == ReadBlob(old(State())) && writeChannel == old(writeChannel)
    {
      var fraction := FractionOf(readChannel);
      readChannel := RestOf(readChannel);
      blobBuffer := blobBuffer + fraction;
      if fraction == [] && |blobBuffer| < blobSize {
        isReading := false;
        signals := signals + [Error];
        return;
      }
      if |blobBuffer| == blobSize {
        if blobSize > PAGE_SIZE {
          isReading := false;
        }
        signals := signals + [DataReceived(blobBuffer)];
      }
    }
  }

  lemma Big32OfValue(s: seq<byte>)
    requires |s| == 4
    ensures Big32(Value32(s)) == s
  {
    var high, low := Value16(s[..2]), Value16(s[2..]);
    assert Value32(s) / 0x1_0000 == high && Value32(s) % 0x1_0000 == low;
    assert Big16(high) == s[..2] && Big16(low) == s[2..];
  }

  /** What one read does to any channel: it takes a length and as many bytes, or it takes
      the length alone, which is 0 or that of a null array, or it uses up the channel. */
  lemma ReadTakes(channel: seq<byte>)
    ensures var fraction, rest := FractionOf(channel), RestOf(channel);
            || (|fraction| < NULL_LENGTH && channel == Big32(|fraction|) + fraction + rest)
            || (fraction == [] && channel == Big32(NULL_LENGTH) + rest)
            || (fraction == [] && rest == [] && (|channel| < 4 || |channel| - 4 < Value32(channel[..4]) < NULL_LENGTH))
  {
    if |channel| >= 4 {
      var n := Value32(channel[..4]);
      Big32OfValue(channel[..4]);
      assert channel == channel[..4] + channel[4..];
      if n != NULL_LENGTH && n <= |channel| - 4 { assert channel[4..] == channel[4..4 + n] + channel[4 + n..]; }
    }
  }

  // The round trip.

  lemma ReadsBackFrame(page: seq<byte>, rest: seq<byte>)
    requires |page| <= PAGE_SIZE
    ensures FractionOf(Framed(page) + rest) == page && RestOf(Framed(page) + rest) == rest
  {
    var channel := Framed(page) + rest;
    assert channel[..4] == Big32(|page|);
    assert channel[4..] == page + rest;
  }

  lemma {:induction false} PageCount(data: seq<byte>)
    ensures |Pages(data)| == (|data| + PAGE_SIZE - 1) / PAGE_SIZE
  {
    if data != [] { PageCount(data[|FirstPage(data)|..]); }
  }

  /** `todo` is what of `data` is still in the channel, in pages. */
  ghost predicate Midway(r: Receiver, data: seq<byte>, todo: seq<byte>, rest: seq<byte>) {
    && r.blobBuffer + todo == data && r.blobSize == |data|
    && r.channel == FramedAll(Pages(todo)) + rest
    && r.isReading == (|data| > PAGE_SIZE)
  }

  lemma PagesSplit(data: seq<byte>)
    requires data != []
    ensures var page, left := FirstPage(data), data[|FirstPage(data)|..];
            page != [] && |page| <= PAGE_SIZE && page + left == data && Pages(data) == [page] + Pages(left)
  {
  }

  lemma FramedAllSplit(page: seq<byte>, pages: seq<seq<byte>>, rest: seq<byte>)
    requires |page| <= PAGE_SIZE && forall i :: 0 <= i < |pages| ==> |pages[i]| <= PAGE_SIZE
    ensures FramedAll([page] + pages) + rest == Framed(page) + (FramedAll(pages) + rest)
  {
    assert ([page] + pages)[1..] == pages;
  }

  lemma FirstPageIsFramed(todo: seq<byte>, rest: seq<byte>)
    requires todo != []
    ensures var page, left := FirstPage(todo), todo[|FirstPage(todo)|..];
            && page != [] && |page| <= PAGE_SIZE && page + left == todo
            && Pages(todo)[1..] == Pages(left)
            && FractionOf(FramedAll(Pages(todo)) + rest) == page
            && RestOf(FramedAll(Pages(todo)) + rest) == FramedAll(Pages(left)) + rest
  {
    var page, left := FirstPage(todo), todo[|FirstPage(todo)|..];
    PagesSplit(todo);
    FramedAllSplit(page, Pages(left), rest);
    ReadsBackFrame(page, FramedAll(Pages(left)) + rest);
  }

  lemma ReadOnePage(r: Receiver, data: seq<byte>, todo: seq<byte>, rest: seq<byte>)
    requires Midway(r, data, todo, rest) && todo != []
    ensures var t, left := ReadBlob(r), todo[|FirstPage(todo)|..];
            && (left != [] ==> Midway(t, data, left, rest) && t.signals == r.signals)
            && (left == [] ==> t == Receiver(rest, data, |data|, false, r.signals + [DataReceived(data)]))
  {
    var page, left := FirstPage(todo), todo[|FirstPage(todo)|..];
    FirstPageIsFramed(todo, rest);
    assert r.blobBuffer + page + left == r.blobBuffer + (page + left);
    if left == [] {
      assert FramedAll(Pages(left)) + rest == rest;
      assert r.blobBuffer + page == data;
    }
  }

  lemma {:induction false} ReadAllPages(r: Receiver, data: seq<byte>, todo: seq<byte>, rest: seq<byte>)
    requires Midway(r, data, todo, rest) && todo != []
    ensures Reads(r, |Pages(todo)|) == Receiver(rest, data, |data|, false, r.signals + [DataReceived(data)])
    ensures forall j: nat :: j < |Pages(todo)| ==>
      Reads(r, j).signals == r.signals && Reads(r, j).isReading == (|data| > PAGE_SIZE)
    decreases |todo|
  {
    var left := todo[|FirstPage(todo)|..];
    ReadOnePage(r, data, todo, rest);
    FirstPageIsFramed(todo, rest);
    if left != [] { ReadAllPages(ReadBlob(r), data, left, rest); }
    forall j: nat | j < |Pages(todo)|
      ensures Reads(r, j).signals == r.signals && Reads(r, j).isReading == (|data| > PAGE_SIZE)
    {
      if j > 0 { assert Reads(r, j) == Reads(ReadBlob(r), j - 1); }
    }
  }

  /** What was sent is received, as one signal, after one read for each page; until
      then notification is on exactly if there is more than one page, and afterwards
      it is off; and bytes that follow stay in the channel. */
  lemma BlobRoundTrip(r: Receiver, data: seq<byte>, rest: seq<byte>)
    requires 0 < |data| <= MAX_SIZE && !r.isReading && r.channel == Sent(data) + rest
    ensures |r.channel| >= 4 && Value32(r.channel[..4]) == |data|
    ensures var start, count := Expecting(HeaderRead(r), |data|), (|data| + PAGE_SIZE - 1) / PAGE_SIZE;
            && Reads(start, count) == Receiver(rest, data, |data|, false, r.signals + [DataReceived(data)])
            && forall j: nat :: j < count ==>
                 Reads(start, j).signals == r.signals && Reads(start, j).isReading == (|data| > PAGE_SIZE)
  {
    assert r.channel[..4] == Big32(|data|);
    assert r.channel[4..] == FramedAll(Pages(data)) + rest;
    PageCount(data);
    ReadAllPages(Expecting(HeaderRead(r), |data|), data, data, rest);
  }

  /** The empty blob has no page, yet one read is made: it is delivered unless that
      read finds the beginning of something else. */
  lemma EmptyBlob(r: Receiver, rest: seq<byte>)
    requires !r.isReading && r.channel == Sent([]) + rest
    ensures ReceiveData(HeaderRead(r), 0).signals == r.signals + [DataReceived([])] <==> FractionOf(rest) == []
    ensures ReceiveData(HeaderRead(r), 0).channel == rest <==> RestOf(rest) == rest
  {
    assert r.channel[4..] == rest;
  }

  // Any input.

  /** A read after which reading goes on has made the buffer grow, unless the buffer
      was already past the size and the fraction empty. */
  lemma ContinuingReadsGrow(r: Receiver)
    requires r.isReading && r.blobSize > PAGE_SIZE && ReadBlob(r).isReading
    ensures |ReadBlob(r).blobBuffer| > |r.blobBuffer| <==> !(FractionOf(r.channel) == [] && |r.blobBuffer| > r.blobSize)
  {
  }

  /** That exception is a standstill: with too many bytes received, an exhausted
      channel is neither an error nor the end. */
  lemma OvershootStandsStill(r: Receiver)
    requires r.isReading && |r.blobBuffer| > r.blobSize && r.channel == []
    ensures ReadBlob(r) == r
  {
    assert r.blobBuffer + [] == r.blobBuffer;
  }

  /** Notification stays on through `n` reads. */
  ghost predicate KeepsReading(r: Receiver, n: nat) {
    forall j: nat :: j <= n ==> Reads(r, j).isReading
  }

  lemma {:induction false} ReadsGrow(r: Receiver, n: nat)
    requires r.blobSize > PAGE_SIZE
    ensures KeepsReading(r, n) && |Reads(r, n).blobBuffer| <= r.blobSize ==>
              |Reads(r, n).blobBuffer| >= |r.blobBuffer| + n
    decreases n
  {
    if n > 0 {
      var t := ReadBlob(r);
      ReadsGrow(t, n - 1);
      if KeepsReading(r, n) && |Reads(r, n).blobBuffer| <= r.blobSize {
        assert Reads(r, 0).isReading && Reads(r, 1).isReading;
        forall j: nat | j <= n - 1
          ensures Reads(t, j).isReading
        {
          assert Reads(r, j + 1) == Reads(t, j);
        }
        BufferNeverShrinks(t, n - 1);
      }
    }
  }

  lemma {:induction false} BufferNeverShrinks(r: Receiver, n: nat)
    ensures |Reads(r, n).blobBuffer| >= |r.blobBuffer|
    decreases n
  {
    if n > 0 { BufferNeverShrinks(ReadBlob(r), n - 1); }
  }

  /** Whatever arrives, after more reads than the blob has bytes reading is over or
      the buffer has overshot. */
  lemma ReadingEndsOrOvershoots(r: Receiver, size: nat)
    requires size > PAGE_SIZE
    ensures !KeepsReading(Expecting(r, size), size + 1) || |Reads(Expecting(r, size), size + 1).blobBuffer| > size
  {
    ReadsGrow(Expecting(r, size), size + 1);
  }

  // Notifications. The daemon gives its handler a disabled notifier, on its own input, so
  // that no read follows the first one.

  /** What the first read makes of any channel: the blob, if it is all in the fraction
      read; an error, if nothing can be read; and otherwise no signal at all. */
  lemma FirstReadDecides(r: Receiver, size: nat)
    ensures var t, fraction := ReceiveData(r, size), FractionOf(r.channel);
            && (t.signals == r.signals + [DataReceived(fraction)] <==> |fraction| == size)
            && (t.signals == r.signals + [Error] <==> fraction == [] && size > 0)
            && (t.signals == r.signals <==> fraction != [] && |fraction| != size)
  {
    var fraction := FractionOf(r.channel);
    assert [] + fraction == fraction;
    assert r.signals + [DataReceived(fraction)] != r.signals + [Error] by {
      assert (r.signals + [DataReceived(fraction)])[|r.signals|] != Error;
    }
  }

  /** So with such a notifier a well-formed blob whose first page has come is delivered if
      and only if that is the whole blob; a longer one gives no signal. */
  lemma OnlyOnePageIsDelivered(r: Receiver, data: seq<byte>, rest: seq<byte>)
    requires data != [] && r.channel == Framed(FirstPage(data)) + rest
    ensures ReceiveData(r, |data|).signals
         == if |data| <= PAGE_SIZE then r.signals + [DataReceived(data)] else r.signals
  {
    FirstReadDecides(r, |data|);
    ReadsBackFrame(FirstPage(data), rest);
  }

  // Without a notifier the read notification comes with an arrival of data, and the slot
  // reads one page.

  /** Some bytes arrive; if notification is on, the slot runs once. */
  function Arrival(r: Receiver, bytes: seq<byte>): Receiver {
    var s := r.(channel := r.channel + bytes);
    if s.isReading then ReadBlob(s) else s
  }

  function Arrivals(r: Receiver, chunks: seq<seq<byte>>): Receiver
    decreases |chunks|
  {
    if chunks == [] then r else Arrivals(Arrival(r, chunks[0]), chunks[1..])
  }

  function Joined(pages: seq<seq<byte>>): seq<byte> {
    if pages == [] then [] else pages[0] + Joined(pages[1..])
  }

  /** All pages of several groups, their bytes, and what arrives with each group. */
  function Flat(groups: seq<seq<seq<byte>>>): seq<seq<byte>> {
    if groups == [] then [] else groups[0] + Flat(groups[1..])
  }

  function BytesOf(groups: seq<seq<seq<byte>>>): seq<byte> {
    if groups == [] then [] else Joined(groups[0]) + BytesOf(groups[1..])
  }

  ghost predicate WellCut(pages: seq<seq<byte>>) {
    forall i :: 0 <= i < |pages| ==> pages[i] != [] && |pages[i]| <= PAGE_SIZE
  }

  ghost predicate Groups(groups: seq<seq<seq<byte>>>) {
    forall i :: 0 <= i < |groups| ==> groups[i] != [] && WellCut(groups[i])
  }

  function Chunk(group: seq<seq<byte>>): seq<byte>
    requires WellCut(group)
  {
    FramedAll(group)
  }

  function Chunks(groups: seq<seq<seq<byte>>>): seq<seq<byte>>
    requires Groups(groups)
  {
    if groups == [] then [] else [Chunk(groups[0])] + Chunks(groups[1..])
  }

  lemma {:induction false} ChunkJoins(a: seq<seq<byte>>, b: seq<seq<byte>>)
    requires WellCut(a) && WellCut(b)
    ensures WellCut(a + b) && Chunk(a + b) == Chunk(a) + Chunk(b)
  {
    if a == [] {
      assert a + b == b;
    } else {
      ChunkJoins(a[1..], b);
      assert (a + b)[1..] == a[1..] + b;
      assert Framed(a[0]) + Chunk(a[1..]) + Chunk(b) == Framed(a[0]) + (Chunk(a[1..]) + Chunk(b));
    }
  }

  lemma {:induction false} JoinedJoins(a: seq<seq<byte>>, b: seq<seq<byte>>)
    ensures Joined(a + b) == Joined(a) + Joined(b)
  {
    if a == [] {
      assert a + b == b;
    } else {
      JoinedJoins(a[1..], b);
      assert (a + b)[1..] == a[1..] + b;
      assert a[0] + Joined(a[1..]) + Joined(b) == a[0] + (Joined(a[1..]) + Joined(b));
    }
  }

  lemma ReadsFirstPage(pages: seq<seq<byte>>)
    requires WellCut(pages) && pages != []
    ensures WellCut(pages[1..]) && FractionOf(Chunk(pages)) == pages[0] && RestOf(Chunk(pages)) == Chunk(pages[1..])
  {
    ReadsBackFrame(pages[0], Chunk(pages[1..]));
  }

  lemma ReadsFraction(r: Receiver, fraction: seq<byte>, rest: seq<byte>)
    requires FractionOf(r.channel) == fraction != [] && RestOf(r.channel) == rest && r.isReading
            && r.blobSize > PAGE_SIZE
    ensures var t, buffer := ReadBlob(r), r.blobBuffer + fraction;
            && t.channel == rest && t.blobBuffer == buffer && t.blobSize == r.blobSize
            && (if |buffer| == r.blobSize then t.signals == r.signals + [DataReceived(buffer)]
                else t.isReading && t.signals == r.signals)
  {
  }

  lemma BufferGrows(buffer: seq<byte>, page: seq<byte>, left: seq<byte>, rest: seq<byte>, data: seq<byte>)
    requires buffer + (page + left) + rest == data
    ensures (buffer + page) + left + rest == data
    ensures |buffer + page| == |data| <==> left == [] && rest == []
    ensures |buffer + page| == |data| ==> buffer + page == data
  {
    assert buffer + (page + left) + rest == (buffer + page) + left + rest;
    if left == [] && rest == [] { assert (buffer + page) + [] + [] == buffer + page; }
  }

  /** Some pages are in the channel, more arrive, and one is taken away; `rest` is still on
      its way. */
  lemma OneArrival(r: Receiver, data: seq<byte>, pages: seq<seq<byte>>, group: seq<seq<byte>>, rest: seq<byte>)
    requires WellCut(pages) && WellCut(group) && group != [] && r.channel == Chunk(pages)
    requires r.isReading && r.blobSize == |data| > PAGE_SIZE && r.blobBuffer + Joined(pages + group) + rest == data
    ensures var t, left := Arrival(r, Chunk(group)), (pages + group)[1..];
            && WellCut(left) && t.channel == Chunk(left) && t.blobSize == |data|
            && t.blobBuffer + Joined(left) + rest == data
            && (if Joined(left) == [] && rest == [] then t.signals == r.signals + [DataReceived(data)]
                else t.isReading && t.signals == r.signals)
  {
    var all := pages + group;
    ChunkJoins(pages, group);
    ReadsFirstPage(all);
    ReadsFraction(r.(channel := Chunk(all)), all[0], Chunk(all[1..]));
    BufferGrows(r.blobBuffer, all[0], Joined(all[1..]), rest, data);
  }

  lemma {:induction false} NothingJoined(pages: seq<seq<byte>>)
    requires WellCut(pages)
    ensures Joined(pages) == [] <==> pages == []
  {
    if pages != [] { assert |Joined(pages)| >= |pages[0]| > 0; }
  }

  lemma NoBytes(groups: seq<seq<seq<byte>>>)
    requires Groups(groups)
    ensures BytesOf(groups) == [] <==> groups == []
  {
    if groups != [] {
      NothingJoined(groups[0]);
      assert |BytesOf(groups)| >= |Joined(groups[0])| > 0;
    }
  }

  lemma {:induction false} GroupedArrivals(r: Receiver, data: seq<byte>, pages: seq<seq<byte>>,
                                           groups: seq<seq<seq<byte>>>)
    requires Groups(groups) && WellCut(pages) && r.channel == Chunk(pages) && r.isReading
    requires r.blobSize == |data| > PAGE_SIZE && r.blobBuffer + Joined(pages) + BytesOf(groups) == data
    requires pages != [] || groups != []
    ensures Arrivals(r, Chunks(groups)).signals
         == if |groups| == |pages| + |Flat(groups)| then r.signals + [DataReceived(data)] else r.signals
    decreases |groups|
  {
    if groups != [] {
      var g, more := groups[0], groups[1..];
      var left := (pages + g)[1..];
      JoinedJoins(pages, g);
      assert r.blobBuffer + (Joined(pages) + Joined(g)) + BytesOf(more)
          == r.blobBuffer + Joined(pages) + (Joined(g) + BytesOf(more));
      OneArrival(r, data, pages, g, BytesOf(more));
      NothingJoined(left);
      NoBytes(more);
      assert Chunks(groups)[1..] == Chunks(more);
      if left != [] || more != [] {
        GroupedArrivals(Arrival(r, Chunk(g)), data, left, more);
      }
    }
  }

  lemma JoinedCons(page: seq<byte>, pages: seq<seq<byte>>)
    ensures Joined([page] + pages) == page + Joined(pages)
  {
    assert ([page] + pages)[1..] == pages;
  }

  lemma {:induction false} PagesAreWellCut(data: seq<byte>)
    ensures WellCut(Pages(data)) && Joined(Pages(data)) == data
    decreases |data|
  {
    if data != [] {
      var page, left := FirstPage(data), data[|FirstPage(data)|..];
      PagesSplit(data);
      PagesAreWellCut(left);
      JoinedCons(page, Pages(left));
    }
  }

  lemma WellCutParts(a: seq<seq<byte>>, b: seq<seq<byte>>)
    requires WellCut(a + b)
    ensures WellCut(a) && WellCut(b)
  {
    assert forall i :: 0 <= i < |a| ==> (a + b)[i] == a[i];
    assert forall i :: 0 <= i < |b| ==> (a + b)[|a| + i] == b[i];
  }

  ghost predicate OneByOne(groups: seq<seq<seq<byte>>>) {
    forall i :: 0 <= i < |groups| ==> |groups[i]| == 1
  }

  lemma {:induction false} FlatBytes(groups: seq<seq<seq<byte>>>)
    requires WellCut(Flat(groups)) && forall i :: 0 <= i < |groups| ==> groups[i] != []
    ensures Groups(groups) && BytesOf(groups) == Joined(Flat(groups))
    ensures |Flat(groups)| >= |groups| && (|Flat(groups)| == |groups| <==> OneByOne(groups))
  {
    if groups != [] {
      var g, more := groups[0], groups[1..];
      WellCutParts(g, Flat(more));
      FlatBytes(more);
      JoinedJoins(g, Flat(more));
      assert forall i :: 0 < i < |groups| ==> groups[i] == more[i - 1];
      assert OneByOne(groups) <==> |g| == 1 && OneByOne(more);
    }
  }

  /** A blob of several pages that arrives in groups, the first of which is there when
      reading starts, is delivered if and only if no two pages come together; otherwise
      reading stops with pages left unread, without an error. */
  lemma DeliveredExactlyWhenOneByOne(r: Receiver, data: seq<byte>, first: seq<seq<byte>>, later: seq<seq<seq<byte>>>)
    requires |data| > PAGE_SIZE && first + Flat(later) == Pages(data)
    requires first != [] && forall i :: 0 <= i < |later| ==> later[i] != []
    requires WellCut(first) ==> r.channel == Chunk(first)
    ensures WellCut(first) && Groups(later)
    ensures Arrivals(ReceiveData(r, |data|), Chunks(later)).signals
         == if |first| == 1 && OneByOne(later) then r.signals + [DataReceived(data)] else r.signals
  {
    var groups := [first] + later;
    assert groups[1..] == later && Flat(groups) == Pages(data);
    PagesAreWellCut(data);
    FlatBytes(groups);
    assert forall i :: 0 < i < |groups| ==> groups[i] == later[i - 1];
    assert OneByOne(groups) <==> |first| == 1 && OneByOne(later);
    var start := Expecting(r, |data|).(channel := []);
    assert [] + r.channel == r.channel && Arrival(start, r.channel) == ReceiveData(r, |data|);
    assert [] + Joined([]) + BytesOf(groups) == data;
    GroupedArrivals(start, data, [], groups);
    assert Chunks(groups) == [r.channel] + Chunks(later);
    assert ([r.channel] + Chunks(later))[1..] == Chunks(later);
  }
}
