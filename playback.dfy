/**
 * Audio-file playback (orchestrator/renderer/modules/playback.js): the ID3 tag reader
 * that names the loaded track, and the seek controls of the loaded media element.
 *
 * A tag is read from the first 128 KiB of the file (ID3v2, "ID3" at byte 0) or else from
 * its last 128 bytes (ID3v1, "TAG" at byte 0 of the trailer). Reading past the bytes
 * that exist throws in the source and the caller turns that into `null`; the model
 * returns `None` for those inputs.
 */
module Playback {
  import opened Wrappers
  import opened Text

  const HeadBytes: nat := 128 * 1024
  const TailBytes: nat := 128
  const TagHeaderBytes: nat := 10
  /** The three 30-byte ID3v1 slots end at byte 93 of the trailer. */
  const V1Bytes: nat := 93

  function Min(a: nat, b: nat): nat
  {
    if a <= b then a else b
  }

  // ---------------------------------------------------------------------------
  // Metadata
  // ---------------------------------------------------------------------------

  datatype Field = Title | Artist | Album

  /** The `metadata` object: a key is present only once a value was stored for it. */
  datatype Metadata = Metadata(title: Option<string>, artist: Option<string>, album: Option<string>)
  {
    function Get(f: Field): Option<string>
    {
      match f
      case Title => title
      case Artist => artist
      case Album => album
    }

    /** `metadata[key] = text`: overwrites that key and no other. */
    function Set(f: Field, text: string): (m: Metadata)
      ensures m.Get(f) == Some(text)
      ensures forall g: Field :: g != f ==> m.Get(g) == Get(g)
    {
      match f
      case Title => this.(title := Some(text))
      case Artist => this.(artist := Some(text))
      case Album => this.(album := Some(text))
    }

    /** `Object.keys(metadata).length === 0`. */
    predicate IsEmpty()
    {
      title.None? && artist.None? && album.None?
    }
  }

  const NoMetadata: Metadata := Metadata(None, None, None)

  // ---------------------------------------------------------------------------
  // Text clean-up: `.replace(/\0+$/, '').trim()` (trimming lives in module Text)
  // ---------------------------------------------------------------------------

  /** `.replace(/\0+$/, '')`: drops the trailing run of NULs. */
  function StripTrailingNuls(s: string): string
  {
    if |s| > 0 && s[|s| - 1] == '\0' then StripTrailingNuls(s[..|s| - 1]) else s
  }

  /** Stripping removes the run of NULs at the end, and nothing else. */
  lemma {:induction false} StripShape(s: string)
    ensures var r := StripTrailingNuls(s);
      && |r| <= |s| && r == s[..|r|]
      && (forall i :: |r| <= i < |s| ==> s[i] == '\0')
      && (|r| == 0 || r[|r| - 1] != '\0')
  {
    if |s| > 0 && s[|s| - 1] == '\0' {
      StripShape(s[..|s| - 1]);
    }
  }

  /** The clean-up every decoded ID3 text goes through. */
  function Clean(s: string): string
  {
    Trim(StripTrailingNuls(s))
  }

  /** A cleaned text neither starts nor ends with white space. */
  lemma CleanEnds(s: string)
    ensures var c := Clean(s); |c| == 0 || (!IsSpace(c[0]) && !IsSpace(c[|c| - 1]))
  {
    TrimEnds(StripTrailingNuls(s));
  }

  /**
   * A cleaned text is a stretch of its input: it ends where the trailing NULs and white
   * space were cut, and what was cut before it is white space.
   */
  lemma CleanIsStretch(s: string)
    ensures var t, c := TrimEnd(StripTrailingNuls(s)), Clean(s);
      |c| <= |t| && |t| <= |s| && c == s[|t| - |c|..|t|] && forall i :: 0 <= i < |t| - |c| ==> IsSpace(s[i])
  {
    var u := StripTrailingNuls(s);
    var t := TrimEnd(u);
    StripShape(s);
    TrimEndShape(u);
    TrimStartShape(t);
    assert t == s[..|t|];
  }

  /** A text without trailing NULs and without surrounding white space is kept as it is. */
  lemma CleanKeepsCleanText(s: string)
    requires |s| == 0 || (s[|s| - 1] != '\0' && !IsSpace(s[0]) && !IsSpace(s[|s| - 1]))
    ensures Clean(s) == s
  {
  }

  /** The model's decoder: one character per byte, as ISO-8859-1 decodes them. */
  function Latin1(bytes: seq<byte>): (s: string)
    ensures |s| == |bytes|
  {
    seq(|bytes|, i requires 0 <= i < |bytes| => bytes[i] as char)
  }

  // ---------------------------------------------------------------------------
  // ID3v2 header
  // ---------------------------------------------------------------------------

  /**
   * The tag size: four synchsafe bytes, seven bits each, most significant first. The
   * source masks each byte with `& 0x7f`, shifts by 21/14/7/0 and ORs the parts; the
   * parts occupy disjoint bits, so the OR is their sum.
   */
  function Synchsafe(b0: byte, b1: byte, b2: byte, b3: byte): (n: nat)
    ensures n < 0x1000_0000
  {
    (b0 % 0x80) * 0x20_0000 + (b1 % 0x80) * 0x4000 + (b2 % 0x80) * 0x80 + b3 % 0x80
  }

  /** The top bit of every byte is ignored. */
  lemma SynchsafeIgnoresTopBits(b0: byte, b1: byte, b2: byte, b3: byte)
    requires b0 >= 0x80 && b1 >= 0x80 && b2 >= 0x80 && b3 >= 0x80
    ensures Synchsafe(b0, b1, b2, b3) == Synchsafe(b0 - 0x80, b1 - 0x80, b2 - 0x80, b3 - 0x80)
  {
  }

  /** The synchsafe encoding of a size below 2^28: four bytes with the top bit clear. */
  function EncodeSynchsafe(n: nat): (b: seq<byte>)
    requires n < 0x1000_0000
    ensures |b| == 4 && forall i :: 0 <= i < 4 ==> b[i] < 0x80
  {
    var q1 := n / 0x80;
    var q2 := q1 / 0x80;
    [q2 / 0x80, q2 % 0x80, q1 % 0x80, n % 0x80]
  }

  /** Decoding the encoding of any size below 2^28 gives it back. */
  lemma SynchsafeRoundTrip(n: nat)
    requires n < 0x1000_0000
    ensures var b := EncodeSynchsafe(n); Synchsafe(b[0], b[1], b[2], b[3]) == n
  {
    var b := EncodeSynchsafe(n);
    var q1 := n / 0x80;
    var q2 := q1 / 0x80;
    var d0, d1, d2, d3: int := b[0], b[1], b[2], b[3];
    assert n == q1 * 0x80 + d3;
    assert q1 == q2 * 0x80 + d2;
    assert q2 == d0 * 0x80 + d1;
    assert d0 % 0x80 == d0 && d1 % 0x80 == d1 && d2 % 0x80 == d2 && d3 % 0x80 == d3;
    assert Synchsafe(b[0], b[1], b[2], b[3]) == ((d0 * 0x80 + d1) * 0x80 + d2) * 0x80 + d3;
  }

  // ---------------------------------------------------------------------------
  // ID3v2 frames
  // ---------------------------------------------------------------------------

  /** Frame header layout: ID3v2.2 uses 3-byte ids and 6-byte headers, later versions 4 and 10. */
  datatype Layout = Layout(idLength: nat, headerSize: nat)

  function LayoutOf(version: byte): (l: Layout)
    ensures l.idLength < l.headerSize
  {
    if version == 2 then Layout(3, 6) else Layout(4, 10)
  }

  /** The frame id: up to `n` bytes from `offset`, stopping at the first NUL. */
  function FrameId(tag: seq<byte>, offset: nat, n: nat): (id: string)
    requires offset + n <= |tag|
    decreases n
  {
    if n == 0 || tag[offset] == 0 then "" else [tag[offset] as char] + FrameId(tag, offset + 1, n - 1)
  }

  /** The id stops at the first NUL, or after `n` bytes. */
  lemma {:induction false} FrameIdLength(tag: seq<byte>, offset: nat, n: nat)
    requires offset + n <= |tag|
    ensures |FrameId(tag, offset, n)| <= n
    ensures |FrameId(tag, offset, n)| < n ==> tag[offset + |FrameId(tag, offset, n)|] == 0
    decreases n
  {
    if n > 0 && tag[offset] != 0 {
      FrameIdLength(tag, offset + 1, n - 1);
    }
  }

  /** Each character of the id is the non-NUL byte at its position. */
  lemma {:induction false} FrameIdChar(tag: seq<byte>, offset: nat, n: nat, i: nat)
    requires offset + n <= |tag| && i < n && i < |FrameId(tag, offset, n)|
    ensures tag[offset + i] != 0 && FrameId(tag, offset, n)[i] as int == tag[offset + i]
    decreases n
  {
    if i > 0 {
      FrameIdChar(tag, offset + 1, n - 1, i - 1);
    }
  }

  /** JavaScript's `|` result read as a signed 32-bit integer. */
  function Int32(u: nat): int
    requires u < 0x1_0000_0000
  {
    if u < 0x8000_0000 then u else u - 0x1_0000_0000
  }

  /**
   * The frame size: 24-bit big-endian after a 3-byte id in ID3v2.2, otherwise the plain
   * (not synchsafe) 32-bit big-endian word after a 4-byte id, as JavaScript's `<<`/`|`
   * deliver it, signed.
   */
  function FrameSize(tag: seq<byte>, version: byte, offset: nat): int
    requires offset + LayoutOf(version).headerSize <= |tag|
  {
    if version == 2 then (tag[offset + 3] as int) * 0x1_0000 + (tag[offset + 4] as int) * 0x100 + tag[offset + 5]
    else Int32((tag[offset + 4] as int) * 0x100_0000 + (tag[offset + 5] as int) * 0x1_0000 + (tag[offset + 6] as int) * 0x100 + tag[offset + 7])
  }

  /** A 32-bit frame size is positive exactly when its top bit is clear and it is not zero. */
  lemma FrameSizeSign(tag: seq<byte>, version: byte, offset: nat)
    requires version != 2 && offset + 10 <= |tag|
    ensures FrameSize(tag, version, offset) > 0 <==>
              tag[offset + 4] < 128 && (tag[offset + 4], tag[offset + 5], tag[offset + 6], tag[offset + 7]) != (0, 0, 0, 0)
  {
  }

  /** The frames worth keeping: TT2/TP1/TAL in ID3v2.2, TIT2/TPE1/TALB otherwise. */
  function FieldOf(version: byte, id: string): Option<Field>
  {
    if version == 2 then
      if id == "TT2" then Some(Title) else if id == "TP1" then Some(Artist) else if id == "TAL" then Some(Album) else None
    else
      if id == "TIT2" then Some(Title) else if id == "TPE1" then Some(Artist) else if id == "TALB" then Some(Album) else None
  }

  /** A frame the walk accepted: where it starts, its body size, its id, and its text bytes (the body after the encoding byte). */
  datatype FrameRef = FrameRef(offset: nat, size: nat, id: string, body: seq<byte>)

  /** The decoded text of a frame, with the clean-up applied. */
  function FrameText(f: FrameRef): string
  {
    Clean(Latin1(f.body))
  }

  /**
   * The frame header at `offset`, if the walk accepts it: the header must fit strictly
   * before the end, the id must not be empty, and the size must be positive with the body
   * inside the tag.
   */
  function FrameAt(tag: seq<byte>, version: byte, offset: nat): (f: Option<FrameRef>)
    ensures f.Some? ==> f.value.offset == offset && 0 < f.value.size
    ensures f.Some? ==> offset + LayoutOf(version).headerSize + f.value.size <= |tag|
  {
    var h := LayoutOf(version).headerSize;
    if offset + h >= |tag| then None
    else
      var id := FrameId(tag, offset, LayoutOf(version).idLength);
      var size := FrameSize(tag, version, offset);
      if id == "" || size <= 0 || offset + h + size > |tag| then None
      else Some(FrameRef(offset, size, id, tag[offset + h + 1..offset + h + size]))
  }

  /** An accepted frame is the first of the walk from its offset, and the walk goes on right after it. */
  lemma FrameAccepted(tag: seq<byte>, version: byte, offset: nat, f: FrameRef)
    requires FrameAt(tag, version, offset) == Some(f)
    ensures Frames(tag, version, offset) == [f] + Frames(tag, version, offset + LayoutOf(version).headerSize + f.size)
  {
  }

  /** The frame walk over the tag (the bytes before `end`): frame after frame until one is not accepted. */
  function Frames(tag: seq<byte>, version: byte, offset: nat): seq<FrameRef>
    decreases |tag| - offset
  {
    match FrameAt(tag, version, offset)
    case None => []
    case Some(f) => [f] + Frames(tag, version, offset + LayoutOf(version).headerSize + f.size)
  }

  /**
   * Each accepted frame lies inside the tag after the starting offset, has a positive
   * size, and the next one starts right after it: the walk never reads at or past the end
   * and always moves forward.
   */
  lemma {:induction false} FrameWithin(tag: seq<byte>, version: byte, offset: nat, k: nat)
    requires k < |Frames(tag, version, offset)|
    ensures var fs, h := Frames(tag, version, offset), LayoutOf(version).headerSize;
      && offset <= fs[k].offset
      && 0 < fs[k].size
      && fs[k].offset + h + fs[k].size <= |tag|
      && (k == 0 ==> fs[k].offset == offset)
      && (k + 1 < |fs| ==> fs[k + 1].offset == fs[k].offset + h + fs[k].size)
    decreases |tag| - offset
  {
    var f := FrameAt(tag, version, offset).value;
    var next := offset + LayoutOf(version).headerSize + f.size;
    var rest := Frames(tag, version, next);
    assert Frames(tag, version, offset) == [f] + rest;
    if k > 0 {
      FrameWithin(tag, version, next, k - 1);
    } else if |rest| > 0 {
      FrameWithin(tag, version, next, 0);
    }
  }

  /** Storing one frame: its text under its key when it is one of the three kept frames. */
  function Store(version: byte, md: Metadata, f: FrameRef): Metadata
  {
    match FieldOf(version, f.id)
    case Some(field) => md.Set(field, FrameText(f))
    case None => md
  }

  function StoreAll(version: byte, md: Metadata, fs: seq<FrameRef>): Metadata
    decreases |fs|
  {
    if |fs| == 0 then md else StoreAll(version, Store(version, md, fs[0]), fs[1..])
  }

  lemma StoreAllCons(version: byte, md: Metadata, f: FrameRef, rest: seq<FrameRef>)
    ensures StoreAll(version, md, [f] + rest) == StoreAll(version, Store(version, md, f), rest)
  {
    assert ([f] + rest)[1..] == rest;
  }

  lemma {:induction false} StoreAllSnoc(version: byte, md: Metadata, fs: seq<FrameRef>, f: FrameRef)
    ensures StoreAll(version, md, fs + [f]) == Store(version, StoreAll(version, md, fs), f)
    decreases |fs|
  {
    if |fs| == 0 {
      assert fs + [f] == [f];
    } else {
      assert (fs + [f])[1..] == fs[1..] + [f];
      StoreAllSnoc(version, Store(version, md, fs[0]), fs[1..], f);
    }
  }

  /** The text of the last frame stored under `field`, if any. */
  function LastText(version: byte, fs: seq<FrameRef>, field: Field): Option<string>
    decreases |fs|
  {
    if |fs| == 0 then None
    else if FieldOf(version, fs[|fs| - 1].id) == Some(field) then Some(FrameText(fs[|fs| - 1]))
    else LastText(version, fs[..|fs| - 1], field)
  }

  /** A later duplicate overwrites an earlier one: each key holds the text of its last frame. */
  lemma {:induction false} LastFrameWins(version: byte, md: Metadata, fs: seq<FrameRef>, field: Field)
    ensures StoreAll(version, md, fs).Get(field) ==
              match LastText(version, fs, field) case Some(t) => Some(t) case None => md.Get(field)
    decreases |fs|
  {
    if |fs| > 0 {
      var init := fs[..|fs| - 1];
      assert fs == init + [fs[|fs| - 1]];
      StoreAllSnoc(version, md, init, fs[|fs| - 1]);
      LastFrameWins(version, md, init, field);
    }
  }

  /** `parseID3v2(view)`: the walk over the bytes up to `min(10 + size, byteLength)`, `null` when nothing was kept. */
  function ParseV2(view: seq<byte>): Option<Metadata>
    requires |view| >= TagHeaderBytes
  {
    var end := Min(TagHeaderBytes + Synchsafe(view[6], view[7], view[8], view[9]), |view|);
    var md := StoreAll(view[3], NoMetadata, Frames(view[..end], view[3], TagHeaderBytes));
    if md.IsEmpty() then None else Some(md)
  }

  /** Reads a frame id byte by byte, stopping at a NUL. */
  method ReadFrameId(tag: seq<byte>, offset: nat, n: nat) returns (id: string)
    requires offset + n <= |tag|
    ensures id == FrameId(tag, offset, n)
  {
    id := "";
    var i := 0;
    while i < n
      invariant 0 <= i <= n
      invariant id + FrameId(tag, offset + i, n - i) == FrameId(tag, offset, n)
    {
      var c := tag[offset + i];
      if c == 0 {
        break;
      }
      id := id + [c as char];
      i := i + 1;
    }
  }

  /** `parseID3v2(view)`: reads the header, walks the frames, `null` when nothing was kept. */
  method ReadV2(view: seq<byte>) returns (r: Option<Metadata>)
    requires |view| >= TagHeaderBytes
    ensures r == ParseV2(view)
  {
    var version := view[3];
    var size := Synchsafe(view[6], view[7], view[8], view[9]);
    var end := Min(TagHeaderBytes + size, |view|);
    var md := WalkFrames(view[..end], version);
    r := if md.IsEmpty() then None else Some(md);
  }

  /** One pass of the frame loop's header reading: the id, then the size, with the loop's stop tests. */
  method ReadFrame(tag: seq<byte>, version: byte, offset: nat) returns (f: Option<FrameRef>)
    requires offset + LayoutOf(version).headerSize < |tag|
    ensures f == FrameAt(tag, version, offset)
  {
    var layout := LayoutOf(version);
    var id := ReadFrameId(tag, offset, layout.idLength);
    if id == "" {
      return None;
    }
    var frameSize := FrameSize(tag, version, offset);
    if frameSize <= 0 || offset + layout.headerSize + frameSize > |tag| {
      return None;
    }
    var textStart := offset + layout.headerSize;
    f := Some(FrameRef(offset, frameSize, id, tag[textStart + 1..textStart + frameSize]));
  }

  /** The frame loop of `parseID3v2` over the bytes before `end`, proved to store what `Frames` accepts. */
  method WalkFrames(tag: seq<byte>, version: byte) returns (md: Metadata)
    ensures md == StoreAll(version, NoMetadata, Frames(tag, version, TagHeaderBytes))
  {
    var offset := TagHeaderBytes;
    var end := |tag|;
    var layout := LayoutOf(version);
    md := NoMetadata;
    ghost var total := StoreAll(version, NoMetadata, Frames(tag, version, TagHeaderBytes));
    while offset + layout.headerSize < end
      invariant StoreAll(version, md, Frames(tag, version, offset)) == total
      decreases end - offset
    {
      var frame := ReadFrame(tag, version, offset);
      if frame.None? {
        break;
      }
      var f := frame.value;
      var next := offset + layout.headerSize + f.size;
      FrameAccepted(tag, version, offset, f);
      StoreAllCons(version, md, f, Frames(tag, version, next));
      md := Store(version, md, f);
      offset := next;
    }
  }

  // ---------------------------------------------------------------------------
  // ID3v1 and the dispatch
  // ---------------------------------------------------------------------------

  /** The 30-byte slot at `at`, decoded and cleaned. */
  function Slot(tail: seq<byte>, at: nat): string
    requires at + 30 <= |tail|
  {
    Clean(Latin1(tail[at..at + 30]))
  }

  function NonEmpty(s: string): Option<string>
  {
    if s == "" then None else Some(s)
  }

  /** `parseID3v1(view)`: title, artist and album from their slots, empty ones left out. */
  function ParseV1(tail: seq<byte>): Option<Metadata>
  {
    if |tail| < V1Bytes then None
    else
      var md := Metadata(NonEmpty(Slot(tail, 3)), NonEmpty(Slot(tail, 33)), NonEmpty(Slot(tail, 63)));
      if md.IsEmpty() then None else Some(md)
  }

  /** An ID3v1 trailer gives `null` exactly when it is too short for the slots or all three are empty. */
  lemma V1Null(tail: seq<byte>)
    ensures ParseV1(tail).None? <==> |tail| < V1Bytes || (Slot(tail, 3) == "" && Slot(tail, 33) == "" && Slot(tail, 63) == "")
  {
  }

  /** Otherwise it holds exactly the non-empty slots: title at 3, artist at 33, album at 63. */
  lemma V1Slots(tail: seq<byte>)
    requires ParseV1(tail).Some?
    ensures var md := ParseV1(tail).value;
      && md.title == NonEmpty(Slot(tail, 3))
      && md.artist == NonEmpty(Slot(tail, 33))
      && md.album == NonEmpty(Slot(tail, 63))
      && forall f: Field :: md.Get(f) != Some("")
  {
  }

  function StartsWith3(s: seq<byte>, a: byte, b: byte, c: byte): bool
    requires |s| >= 3
  {
    s[0] == a && s[1] == b && s[2] == c
  }

  /** `parseID3Metadata(file)` on the file's bytes. */
  function ParseMetadata(file: seq<byte>): Option<Metadata>
  {
    var head := file[..Min(HeadBytes, |file|)];
    if |head| < 3 then None
    else if StartsWith3(head, 0x49, 0x44, 0x33) then
      if |head| < TagHeaderBytes then None else ParseV2(head)
    else
      var tail := file[|file| - Min(TailBytes, |file|)..];
      if StartsWith3(tail, 0x54, 0x41, 0x47) then ParseV1(tail) else None
  }

  /**
   * "ID3" at the start selects the ID3v2 reader on the first 128 KiB, even when a
   * trailer exists; otherwise a "TAG" trailer selects the ID3v1 reader on the last 128
   * bytes; with neither the result is `null`.
   */
  lemma Dispatch(file: seq<byte>)
    ensures |file| >= TagHeaderBytes && StartsWith3(file, 0x49, 0x44, 0x33) ==>
              ParseMetadata(file) == ParseV2(file[..Min(HeadBytes, |file|)])
    ensures |file| >= 3 && !StartsWith3(file, 0x49, 0x44, 0x33) ==>
              ParseMetadata(file) == (var tail := file[|file| - Min(TailBytes, |file|)..];
                                      if StartsWith3(tail, 0x54, 0x41, 0x47) then ParseV1(tail) else None)
    ensures ParseMetadata(file).Some? ==> !ParseMetadata(file).value.IsEmpty()
  {
  }

  // ---------------------------------------------------------------------------
  // The media element
  // ---------------------------------------------------------------------------

  /** `max(0, min(t, duration))`. */
  function ClampTime(t: real, duration: real): (c: real)
    requires duration >= 0.0
    ensures 0.0 <= c <= duration
    ensures 0.0 <= t <= duration ==> c == t
    ensures t < 0.0 ==> c == 0.0
    ensures t > duration ==> c == duration
  {
    if t < duration then (if t < 0.0 then 0.0 else t) else duration
  }

  /** The module's media state: whether an element is loaded, its position and length, and the repeat flag. */
  class Player {
    var element: bool
    var fileLoaded: bool
    var currentTime: real
    var duration: real
    var paused: bool
    var repeat: bool

    ghost predicate Valid()
      reads this
    {
      duration >= 0.0 && 0.0 <= currentTime <= duration && (fileLoaded ==> element)
    }

    constructor ()
      ensures Valid() && !element && !fileLoaded && !repeat
    {
      element, fileLoaded, currentTime, duration, paused, repeat := false, false, 0.0, 0.0, true, false;
    }

    /**
     * A successful `loadAudioFile`: the previous file is unloaded first, which turns repeat
     * off, then a fresh element of the given length waits at its start.
     */
    method Loaded(length: real)
      requires length >= 0.0
      modifies this
      ensures Valid() && element && fileLoaded && currentTime == 0.0 && duration == length && paused
      ensures !repeat
    {
      Unload();
      element, fileLoaded, currentTime, duration, paused := true, true, 0.0, length, true;
    }

    /** `unloadAudioFile`: no element, not loaded, repeat off. */
    method Unload()
      modifies this
      ensures Valid() && !element && !fileLoaded && !repeat
    {
      element, fileLoaded, repeat := false, false, false;
      currentTime, duration, paused := 0.0, 0.0, true;
    }

    method Play() returns (ok: bool)
      modifies this
      ensures ok == old(element) && (ok ==> !paused) && (!ok ==> paused == old(paused))
      ensures currentTime == old(currentTime) && duration == old(duration) && element == old(element)
      ensures fileLoaded == old(fileLoaded) && repeat == old(repeat)
    {
      ok := element;
      if element {
        paused := false;
      }
    }

    method Pause() returns (ok: bool)
      modifies this
      ensures ok == old(element) && (ok ==> paused) && (!ok ==> paused == old(paused))
      ensures currentTime == old(currentTime) && duration == old(duration) && element == old(element)
      ensures fileLoaded == old(fileLoaded) && repeat == old(repeat)
    {
      ok := element;
      if element {
        paused := true;
      }
    }

    /** `stopAudio`: paused and back at the start. */
    method Stop() returns (ok: bool)
      requires Valid()
      modifies this
      ensures Valid() && ok == old(element)
      ensures ok ==> paused && currentTime == 0.0
      ensures !ok ==> paused == old(paused) && currentTime == old(currentTime)
      ensures duration == old(duration) && element == old(element) && fileLoaded == old(fileLoaded) && repeat == old(repeat)
    {
      ok := element;
      if element {
        paused := true;
        currentTime := 0.0;
      }
    }

    /** `seekAudio(time)`: clamps into [0, duration]; without an element nothing happens and the answer is false. */
    method SeekAudio(time: real) returns (ok: bool)
      requires Valid()
      modifies this
      ensures Valid() && ok == old(element)
      ensures currentTime == if ok then ClampTime(time, duration) else old(currentTime)
      ensures duration == old(duration) && element == old(element) && fileLoaded == old(fileLoaded)
      ensures paused == old(paused) && repeat == old(repeat)
    {
      ok := element;
      if element {
        currentTime := ClampTime(time, duration);
      }
    }

    /** `seekRelative(delta)`: a seek to the current position plus `delta`. */
    method SeekRelative(delta: real) returns (ok: bool)
      requires Valid()
      modifies this
      ensures Valid() && ok == old(element)
      ensures currentTime == if ok then ClampTime(old(currentTime) + delta, duration) else old(currentTime)
      ensures duration == old(duration) && element == old(element) && fileLoaded == old(fileLoaded)
      ensures paused == old(paused) && repeat == old(repeat)
    {
      ok := element;
      if element {
        ok := SeekAudio(currentTime + delta);
      }
    }

    method SetRepeat(enabled: bool)
      modifies this
      ensures repeat == enabled
      ensures currentTime == old(currentTime) && duration == old(duration) && element == old(element)
      ensures fileLoaded == old(fileLoaded) && paused == old(paused)
    {
      repeat := enabled;
    }

    /** The `ended` event, after the element has paused at its end: with repeat on, back to the start and playing; otherwise the end is reported. */
    method Ended() returns (reported: bool)
      requires Valid() && element
      modifies this
      ensures Valid() && reported == !old(repeat)
      ensures old(repeat) ==> currentTime == 0.0 && !paused
      ensures !old(repeat) ==> currentTime == old(currentTime) && paused
      ensures duration == old(duration) && element == old(element) && fileLoaded == old(fileLoaded) && repeat == old(repeat)
    {
      // The element pauses itself at the end of the media before `ended` fires.
      paused := true;
      if repeat {
        currentTime := 0.0;
        paused := false;
        reported := false;
      } else {
        reported := true;
      }
    }
  }

  /** Seeking is idempotent: a position already inside the track is kept, and clamping twice is clamping once. */
  lemma ClampIdempotent(t: real, duration: real)
    requires duration >= 0.0
    ensures ClampTime(ClampTime(t, duration), duration) == ClampTime(t, duration)
    ensures ClampTime(t, duration) == t <==> 0.0 <= t <= duration
  {
  }
}
