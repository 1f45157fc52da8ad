/**
 * The image-to-ASCII command line (ascii-service/cli.py): argument checks, the id an
 * image is stored under, the lines kept from the converter's text, the gallery entry,
 * and the `--append-to` upsert into a gallery file. The converter itself, the GIF probe
 * and the file system are not modelled: their results are parameters.
 */
module AsciiCli {
  import opened Wrappers
  import opened Text

  datatype Mode = Terminal | Html | Json

  /** The parsed command line; `None` is an option that was not given. */
  datatype Args = Args(file: Option<string>, url: Option<string>, columns: int, mode: Mode,
                       id: Option<string>, appendTo: Option<string>)

  /** Python truthiness of an optional string. */
  predicate Truthy(o: Option<string>)
  {
    o.Some? && o.value != ""
  }

  // ---------------------------------------------------------------------------
  // Argument checks
  // ---------------------------------------------------------------------------

  datatype Refusal = NoInput | BothInputs | HtmlForGif

  /** `is_gif = args.file and is_animated_gif(args.file)`; `animated` is the probe's answer. */
  predicate IsGif(args: Args, animated: bool)
  {
    Truthy(args.file) && animated
  }

  /** The `parser.error` calls, in the order the source reaches them. */
  function Refused(args: Args, animated: bool): Option<Refusal>
  {
    if !Truthy(args.file) && !Truthy(args.url) then Some(NoInput)
    else if Truthy(args.file) && Truthy(args.url) then Some(BothInputs)
    else if args.mode == Html && IsGif(args, animated) then Some(HtmlForGif)
    else None
  }

  /**
   * A command line is accepted exactly when one of FILE and `--url` is given, and it is
   * not HTML output of an animated GIF; the input errors take precedence.
   */
  lemma RefusedSpec(args: Args, animated: bool)
    ensures var r := Refused(args, animated);
      && (r.None? <==> (Truthy(args.file) != Truthy(args.url)) && !(args.mode == Html && IsGif(args, animated)))
      && (r == Some(NoInput) <==> !Truthy(args.file) && !Truthy(args.url))
      && (r == Some(BothInputs) <==> Truthy(args.file) && Truthy(args.url))
      && (r == Some(HtmlForGif) ==> Truthy(args.file) && !Truthy(args.url) && animated)
  {
  }

  // ---------------------------------------------------------------------------
  // Paths and the image id
  // ---------------------------------------------------------------------------

  /** The index of the last `c` in `s`, or -1 (`str.rfind`). */
  function LastIndexOf(s: string, c: char): (i: int)
    ensures -1 <= i < |s|
    ensures i >= 0 ==> s[i] == c
    ensures forall k :: i < k < |s| ==> s[k] != c
  {
    if |s| == 0 then -1
    else if s[|s| - 1] == c then |s| - 1
    else LastIndexOf(s[..|s| - 1], c)
  }

  /** `os.path.basename`: what follows the last '/'. */
  function Basename(path: string): string
  {
    path[LastIndexOf(path, '/') + 1..]
  }

  /** A basename is a '/'-free ending of the path that runs up to the last '/'. */
  lemma BasenameSpec(path: string)
    ensures var b := Basename(path);
      && |b| <= |path| && b == path[|path| - |b|..]
      && (forall k :: 0 <= k < |b| ==> b[k] != '/')
      && (|b| < |path| ==> path[|path| - |b| - 1] == '/')
  {
  }

  predicate AllDots(s: string)
  {
    forall k :: 0 <= k < |s| ==> s[k] == '.'
  }

  /**
   * `os.path.splitext(name)[0]` for a name without '/': everything before the last '.',
   * unless only dots precede it (a leading-dot name has no extension).
   */
  function Stem(name: string): (s: string)
    ensures |s| <= |name| && s == name[..|s|]
  {
    var d := LastIndexOf(name, '.');
    if d > 0 && !AllDots(name[..d]) then name[..d] else name
  }

  /**
   * `s` is what `splitext` keeps of `name`: a beginning of the name that leaves off either
   * nothing, when every '.' past the first character has only dots before it, or a '.'
   * followed by no other '.' after a stem that is not all dots.
   */
  ghost predicate IsStem(s: string, name: string)
  {
    && |s| <= |name| && s == name[..|s|]
    && var ext := name[|s|..];
       && (ext == "" || (ext[0] == '.' && (forall k :: 1 <= k < |ext| ==> ext[k] != '.') && !AllDots(s)))
       && (ext == "" ==> forall k :: 0 < k < |name| && name[k] == '.' ==> AllDots(name[..k]))
  }

  /** The stem is what `splitext` keeps. */
  lemma StemSpec(name: string)
    ensures IsStem(Stem(name), name)
  {
    var d := LastIndexOf(name, '.');
    if !(d > 0 && !AllDots(name[..d])) {
      forall k | 0 < k < |name| && name[k] == '.'
        ensures AllDots(name[..k])
      {
        assert k <= d;
        assert forall j :: 0 <= j < k ==> name[..k][j] == name[..d][j];
      }
    }
  }

  /** No other beginning of the name is what `splitext` keeps: `IsStem` pins `Stem` down. */
  lemma StemOnly(s: string, name: string)
    requires IsStem(s, name)
    ensures s == Stem(name)
  {
    var d := LastIndexOf(name, '.');
    if |s| == |name| {
      assert s == name;
      if d > 0 {
        assert name[d] == '.';
      }
    } else {
      var ext := name[|s|..];
      assert name[|s|] == ext[0] == '.';
      assert d >= |s|;
      assert name[..d] == s;
    }
  }

  /** The image id: `--id` when given, else the file's stem, else "image" for a URL. */
  function ImageId(args: Args): string
  {
    if Truthy(args.id) then args.id.value
    else if Truthy(args.file) then Stem(Basename(args.file.value))
    else "image"
  }

  /**
   * An explicit id wins; a file gives the stem of its basename, which is the basename less
   * its extension and holds no '/'; a URL gives "image".
   */
  lemma ImageIdSpec(args: Args)
    ensures var id := ImageId(args);
      && (Truthy(args.id) ==> id == args.id.value)
      && (!Truthy(args.id) && Truthy(args.file) ==>
            var b := Basename(args.file.value);
            && IsStem(id, b) && b == id + b[|id|..] && (forall k :: 0 <= k < |id| ==> id[k] != '/'))
      && (!Truthy(args.id) && !Truthy(args.file) ==> id == "image")
  {
    if !Truthy(args.id) && Truthy(args.file) {
      BasenameSpec(args.file.value);
      StemOfSlashFree(Basename(args.file.value));
    }
  }

  /** The stem of a '/'-free name is the name less its extension, and holds no '/'. */
  lemma StemOfSlashFree(b: string)
    requires forall k :: 0 <= k < |b| ==> b[k] != '/'
    ensures var id := Stem(b);
      IsStem(id, b) && b == id + b[|id|..] && (forall k :: 0 <= k < |id| ==> id[k] != '/')
  {
    StemSpec(b);
    var id := Stem(b);
    assert forall k :: 0 <= k < |id| ==> id[k] == b[k];
  }

  /** The entry's `source`: the URL, or the file's basename. */
  function Source(args: Args): string
  {
    if Truthy(args.url) then args.url.value
    else if args.file.Some? then Basename(args.file.value)
    else ""
  }

  // ---------------------------------------------------------------------------
  // Lines
  // ---------------------------------------------------------------------------

  function NonEmpty(pieces: seq<string>): (kept: seq<string>)
    ensures |kept| <= |pieces|
  {
    if |pieces| == 0 then []
    else if pieces[0] == "" then NonEmpty(pieces[1..])
    else [pieces[0]] + NonEmpty(pieces[1..])
  }

  /** `[line for line in text.split("\n") if line]`. */
  function KeepLines(text: string): seq<string>
  {
    NonEmpty(Split(text))
  }

  /** The concatenation of the strings in `ss`. */
  function Concat(ss: seq<string>): string
  {
    if |ss| == 0 then "" else ss[0] + Concat(ss[1..])
  }

  /** The text with its newlines removed. */
  function WithoutNewlines(s: string): (r: string)
    ensures NoNewline(r)
  {
    if |s| == 0 then ""
    else if s[0] == '\n' then WithoutNewlines(s[1..])
    else [s[0]] + WithoutNewlines(s[1..])
  }

  lemma {:induction false} NonEmptySpec(pieces: seq<string>)
    requires forall k :: 0 <= k < |pieces| ==> NoNewline(pieces[k])
    ensures var kept := NonEmpty(pieces);
      && (forall k :: 0 <= k < |kept| ==> kept[k] != "" && NoNewline(kept[k]))
      && Concat(kept) == Concat(pieces)
  {
    if |pieces| > 0 {
      NonEmptySpec(pieces[1..]);
    }
  }

  lemma {:induction false} ConcatSplit(s: string)
    ensures Concat(Split(s)) == WithoutNewlines(s)
  {
    if |s| > 0 {
      ConcatSplit(s[1..]);
      var rest := Split(s[1..]);
      if s[0] != '\n' {
        var p := [[s[0]] + rest[0]] + rest[1..];
        assert p[1..] == rest[1..];
        assert Concat(rest) == rest[0] + Concat(rest[1..]);
      }
    }
  }

  /**
   * No kept line is empty or holds a newline, and together they are the text without its
   * newlines: only the line breaks and the empty lines are lost.
   */
  lemma KeepLinesSpec(text: string)
    ensures var lines := KeepLines(text);
      && (forall k :: 0 <= k < |lines| ==> lines[k] != "" && NoNewline(lines[k]))
      && Concat(lines) == WithoutNewlines(text)
  {
    SplitPieces(text);
    NonEmptySpec(Split(text));
    ConcatSplit(text);
  }

  lemma {:induction false} NonEmptyKeeps(pieces: seq<string>)
    requires forall k :: 0 <= k < |pieces| ==> pieces[k] != ""
    ensures NonEmpty(pieces) == pieces
  {
    if |pieces| > 0 {
      NonEmptyKeeps(pieces[1..]);
    }
  }

  /** The filter works piece by piece: filtering a join is joining the filtered parts. */
  lemma {:induction false} NonEmptyAppend(a: seq<string>, b: seq<string>)
    ensures NonEmpty(a + b) == NonEmpty(a) + NonEmpty(b)
  {
    if |a| > 0 {
      assert (a + b)[0] == a[0] && (a + b)[1..] == a[1..] + b;
      NonEmptyAppend(a[1..], b);
    } else {
      assert a + b == b;
    }
  }

  /** A single piece is dropped exactly when it is empty. */
  lemma NonEmptySingle(p: string)
    ensures NonEmpty([p]) == if p == "" then [] else [p]
  {
    assert [p][1..] == [];
  }

  /**
   * Every newline is a line break: the lines kept from two texts joined by a newline are
   * those of the first followed by those of the second.
   */
  lemma KeepLinesBreak(a: string, b: string)
    ensures KeepLines(a + "\n" + b) == KeepLines(a) + KeepLines(b)
  {
    SplitBreak(a, b);
    NonEmptyAppend(Split(a), Split(b));
  }

  /** A newline-free text is one line, kept exactly when it is not empty. */
  lemma KeepLinesOne(a: string)
    requires NoNewline(a)
    ensures KeepLines(a) == if a == "" then [] else [a]
  {
    SplitOne(a);
    NonEmptySingle(a);
  }

  /** Lines that are non-empty and newline-free, joined by newlines, are kept as they are. */
  lemma KeepLinesJoin(lines: seq<string>)
    requires |lines| >= 1
    requires forall k :: 0 <= k < |lines| ==> lines[k] != "" && NoNewline(lines[k])
    ensures KeepLines(Join(lines)) == lines
  {
    SplitJoin(lines);
    NonEmptyKeeps(lines);
  }

  // ---------------------------------------------------------------------------
  // Entries
  // ---------------------------------------------------------------------------

  /** A static image stores `lines`; an animated GIF stores `frames`. */
  datatype Art = Lines(lines: seq<string>) | Frames(frames: seq<seq<string>>)

  datatype Entry = Entry(id: string, source: string, columns: int, art: Art)

  /**
   * The JSON entry. `text` is the converter's output for a static image, `frameTexts`
   * its output for each GIF frame.
   */
  function MakeEntry(args: Args, animated: bool, text: string, frameTexts: seq<string>): Entry
  {
    var art := if IsGif(args, animated)
      then Frames(seq(|frameTexts|, i requires 0 <= i < |frameTexts| => KeepLines(frameTexts[i])))
      else Lines(KeepLines(text));
    Entry(ImageId(args), Source(args), args.columns, art)
  }

  /** `len(entry.get('frames', [entry.get('lines', [])]))`. */
  function FrameCount(e: Entry): nat
  {
    match e.art
    case Frames(frames) => |frames|
    case Lines(_) => 1
  }

  /**
   * The entry carries the image id, the source and the columns; a GIF stores, frame by
   * frame, the lines kept from that frame's text and reports that many frames, a static
   * image the lines kept from its text and one frame; no stored line is empty.
   */
  lemma MakeEntrySpec(args: Args, animated: bool, text: string, frameTexts: seq<string>)
    ensures var e := MakeEntry(args, animated, text, frameTexts);
      && e.id == ImageId(args) && e.source == Source(args) && e.columns == args.columns
      && (IsGif(args, animated) <==> e.art.Frames?)
      && FrameCount(e) == (if IsGif(args, animated) then |frameTexts| else 1)
      && (e.art.Lines? ==> e.art.lines == KeepLines(text) && forall k :: 0 <= k < |e.art.lines| ==> e.art.lines[k] != "")
      && (e.art.Frames? ==> forall i :: 0 <= i < |frameTexts| ==> e.art.frames[i] == KeepLines(frameTexts[i]))
      && (e.art.Frames? ==> forall i, k :: 0 <= i < |frameTexts| && 0 <= k < |e.art.frames[i]| ==> e.art.frames[i][k] != "")
  {
    KeepLinesSpec(text);
    forall i | 0 <= i < |frameTexts| {
      KeepLinesSpec(frameTexts[i]);
    }
  }

  // ---------------------------------------------------------------------------
  // The gallery file
  // ---------------------------------------------------------------------------

  /** The index of the last entry with `id`, or -1: where the source's id map points. */
  function LastWith(images: seq<Entry>, id: string): (i: int)
    ensures -1 <= i < |images|
    ensures i >= 0 ==> images[i].id == id
    ensures forall k :: i < k < |images| ==> images[k].id != id
  {
    if |images| == 0 then -1
    else if images[|images| - 1].id == id then |images| - 1
    else LastWith(images[..|images| - 1], id)
  }

  /** The images after the upsert of `entry`. */
  function Upserted(images: seq<Entry>, entry: Entry): seq<Entry>
  {
    var i := LastWith(images, entry.id);
    if i >= 0 then images[i := entry] else images + [entry]
  }

  /**
   * An id already present is replaced at its last position, the length and every other
   * entry unchanged; a new id is appended at the end.
   */
  lemma UpsertedSpec(images: seq<Entry>, entry: Entry)
    ensures var r := Upserted(images, entry);
      && ((exists k :: 0 <= k < |images| && images[k].id == entry.id) ==>
            && |r| == |images|
            && var i := LastWith(images, entry.id);
               && r[i] == entry && (forall k :: i < k < |images| ==> images[k].id != entry.id)
               && forall k :: 0 <= k < |images| && k != i ==> r[k] == images[k])
      && ((forall k :: 0 <= k < |images| ==> images[k].id != entry.id) ==> r == images + [entry])
  {
  }

  /** Upserting the same entry again changes nothing. */
  lemma UpsertedIdempotent(images: seq<Entry>, entry: Entry)
    ensures Upserted(Upserted(images, entry), entry) == Upserted(images, entry)
  {
    var r := Upserted(images, entry);
    var i := LastWith(images, entry.id);
    var j := if i >= 0 then i else |images|;
    assert r[j] == entry;
    assert LastWith(r, entry.id) == j by {
      var m := LastWith(r, entry.id);
      assert m >= j;
    }
  }

  /** `{img["id"]: i for i, img in enumerate(images)}`: each id maps to its last index. */
  method IndexById(images: seq<Entry>) returns (existing: map<string, nat>)
    ensures forall id :: id in existing <==> LastWith(images, id) >= 0
    ensures forall id :: id in existing ==> existing[id] as int == LastWith(images, id)
  {
    existing := map[];
    for i := 0 to |images|
      invariant forall id :: id in existing <==> LastWith(images[..i], id) >= 0
      invariant forall id :: id in existing ==> existing[id] as int == LastWith(images[..i], id)
    {
      assert images[..i + 1][..i] == images[..i];
      existing := existing[images[i].id := i];
    }
    assert images[..|images|] == images;
  }

  /** The `data` object of the `--append-to` branch. */
  class GalleryFile {
    var images: seq<Entry>

    /** A missing file starts from `{"images": []}`. */
    constructor Missing()
      ensures images == []
    {
      images := [];
    }

    /** A file that exists is loaded as it is. */
    constructor Loaded(stored: seq<Entry>)
      ensures images == stored
    {
      images := stored;
    }

    /** Replace the entry with the same id in place, or append it. */
    method Upsert(entry: Entry)
      modifies this
      ensures images == Upserted(old(images), entry)
    {
      var existing := IndexById(images);
      if entry.id in existing {
        images := images[existing[entry.id] := entry];
      } else {
        images := images + [entry];
      }
    }
  }
}
