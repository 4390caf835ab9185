/**
 * String and list helpers of the data manager (src/services/dataManagerServices.ts):
 * result paging, the serialiser that turns a drawn melody into the query
 * parameter of the matching script, and the extraction of title, author and
 * comment from an MEI file.
 */
module DataManager {
  import opened Wrappers
  import opened Strings
  import opened LazyMatch

  // ------------------------------------------------------------------ slices

  /** A relative index of `slice`: negative counts from the end; clamped to [0, len]. */
  function SliceIndex(i: int, len: nat): (r: nat)
    ensures r <= len
  {
    if i < 0 then (if len + i < 0 then 0 else len + i) else if i > len then len else i
  }

  /** `s.slice(start, end)` on arrays and strings alike. */
  function JsSlice<T>(s: seq<T>, start: int, end: int): (r: seq<T>)
    ensures |r| <= |s|
  {
    var from, to := SliceIndex(start, |s|), SliceIndex(end, |s|);
    if from < to then s[from..to] else []
  }

  /** `s.slice(0, -2)`: everything but the last two elements. */
  lemma DropLastTwo<T>(s: seq<T>, tail: seq<T>)
    requires |tail| == 2
    ensures JsSlice(s + tail, 0, -2) == s
  {
    assert (s + tail)[0..|s|] == s;
  }

  // ------------------------------------------------------------------ paging

  function Min(a: int, b: int): int {
    if a < b then a else b
  }

  /** The items of page `pageNb`, pages being numbered from 1 (dataManagerServices.ts:21-23). */
  function GetPageN<T>(data: seq<T>, pageNb: int, numberPerPage: int): (r: seq<T>)
  {
    JsSlice(data, (pageNb - 1) * numberPerPage, pageNb * numberPerPage)
  }

  /**
   * For a page number from 1 and a non-negative page size, page `p` holds
   * the items from position (p-1)*n up to p*n, cut at the end of the data:
   * at most `n` items, none past the end.
   */
  lemma GetPageNIsWindow<T>(data: seq<T>, pageNb: int, numberPerPage: int)
    requires pageNb >= 1 && numberPerPage >= 0
    ensures var start := Min((pageNb - 1) * numberPerPage, |data|);
      GetPageN(data, pageNb, numberPerPage) == data[start..Min(pageNb * numberPerPage, |data|)]
    ensures |GetPageN(data, pageNb, numberPerPage)| <= numberPerPage
    ensures (pageNb - 1) * numberPerPage >= |data| ==> GetPageN(data, pageNb, numberPerPage) == []
  {
    var start, end := (pageNb - 1) * numberPerPage, pageNb * numberPerPage;
    assert end == start + numberPerPage;
    assert 0 <= start;
    assert SliceIndex(start, |data|) == Min(start, |data|);
    assert SliceIndex(end, |data|) == Min(end, |data|);
  }

  /** The concatenation of pages 1 to `k`. */
  function FirstPages<T>(data: seq<T>, k: nat, numberPerPage: int): seq<T> {
    if k == 0 then [] else FirstPages(data, k - 1, numberPerPage) + GetPageN(data, k, numberPerPage)
  }

  /** Pages 1 to `k` together are the first k*n items, in order, with nothing repeated or lost. */
  lemma {:induction false} PagesCoverData<T>(data: seq<T>, k: nat, numberPerPage: nat)
    ensures FirstPages(data, k, numberPerPage) == data[..Min(k * numberPerPage, |data|)]
  {
    if k > 0 {
      PagesCoverData(data, k - 1, numberPerPage);
      GetPageNIsWindow(data, k, numberPerPage);
      assert (k - 1) * numberPerPage == k * numberPerPage - numberPerPage;
      var a, b := Min((k - 1) * numberPerPage, |data|), Min(k * numberPerPage, |data|);
      assert data[..a] + data[a..b] == data[..b];
    }
  }

  // ------------------------------------------------------- notes parameter

  /** A note of the drawn melody, with the fields the serialiser reads. */
  datatype StaveNote = StaveNote(keys: seq<string>, noteType: string, duration: string, dots: Option<nat>)

  /** One key of a note: `None` when pitch is ignored, `'r'` for a rest, the quoted key otherwise. */
  function KeyText(note: StaveNote, key: string, ignorePitch: bool): string {
    if ignorePitch then "None" else if note.noteType == "r" then "'r'" else "'" + key + "'"
  }

  function KeyTexts(note: StaveNote, ignorePitch: bool): seq<string> {
    seq(|note.keys|, j requires 0 <= j < |note.keys| => KeyText(note, note.keys[j], ignorePitch))
  }

  /** `dots || 0` */
  function DotsOf(note: StaveNote): nat {
    if note.dots.Some? then note.dots.value else 0
  }

  /**
   * The rhythm part: `None, None` when rhythm is ignored, otherwise the
   * rendered fraction of a whole note (`durationText`) and the dot count.
   */
  function RhythmText(note: StaveNote, ignoreRhythm: bool, durationText: string -> string): string {
    if ignoreRhythm then "None, None" else durationText(note.duration) + ", " + NatToString(DotsOf(note))
  }

  /**
   * The tuple of one note: `([keys], rhythm)`. A note without keys loses its
   * opening `([`, because the trailing-separator cut then eats it.
   */
  function TupleText(note: StaveNote, ignorePitch: bool, ignoreRhythm: bool, durationText: string -> string): string {
    KeysOpening(KeyTexts(note, ignorePitch)) + "], " + RhythmText(note, ignoreRhythm, durationText) + ")"
  }

  function TupleTexts(melody: seq<StaveNote>, ignorePitch: bool, ignoreRhythm: bool, durationText: string -> string): seq<string> {
    seq(|melody|, k requires 0 <= k < |melody| => TupleText(melody[k], ignorePitch, ignoreRhythm, durationText))
  }

  /**
   * The Python list of tuples the matching script reads: `[t1, t2, ...]`.
   * An empty melody gives `]`, because the final cut removes the opening `[`.
   */
  function NotesQuery(melody: seq<StaveNote>, ignorePitch: bool, ignoreRhythm: bool, durationText: string -> string): string {
    if melody == [] then "]" else "[" + Join(TupleTexts(melody, ignorePitch, ignoreRhythm, durationText), ", ") + "]"
  }

  /** The keys' part of a tuple once the trailing separator is cut: empty when there are no keys. */
  function KeysOpening(keyTexts: seq<string>): string {
    if keyTexts == [] then "" else "([" + Join(keyTexts, ", ")
  }

  /** Cutting the last two characters after the keys removes the last separator, or the `([` itself. */
  lemma CutAfterKeys(before: string, keyTexts: seq<string>)
    ensures JsSlice(before + "([" + Terminated(keyTexts, ", "), 0, -2) == before + KeysOpening(keyTexts)
  {
    if keyTexts == [] {
      assert before + "([" + Terminated(keyTexts, ", ") == before + "([";
      DropLastTwo(before, "([");
    } else {
      TerminatedIsJoinPlusSep(keyTexts, ", ");
      assert before + "([" + Terminated(keyTexts, ", ") == (before + "([" + Join(keyTexts, ", ")) + ", ";
      DropLastTwo(before + "([" + Join(keyTexts, ", "), ", ");
    }
  }

  /** Appending the next part and its separator extends a terminated prefix. */
  lemma TerminatedAppend(prefix: string, parts: seq<string>, i: nat, sep: string, piece: string)
    requires i < |parts| && piece == parts[i] + sep
    ensures prefix + Terminated(parts[..i], sep) + piece == prefix + Terminated(parts[..i + 1], sep)
  {
    TerminatedPrefixStep(parts, i, sep);
  }

  /** The pieces appended for one note make up its tuple and a separator. */
  lemma TupleAppended(before: string, opening: string, rhythm: string)
    ensures before + opening + "], " + (rhythm + "), ") == before + (opening + "], " + rhythm + ")" + ", ")
  {
  }

  /** Appends `([` and every key of one note, each followed by a separator (dataManagerServices.ts:68-80). */
  method AppendKeys(before: string, note: StaveNote, ignorePitch: bool) returns (notes: string)
    ensures notes == before + "([" + Terminated(KeyTexts(note, ignorePitch), ", ")
  {
    ghost var keyTexts := KeyTexts(note, ignorePitch);
    notes := before + "([";
    var noteIdx := 0;
    while noteIdx < |note.keys|
      invariant noteIdx <= |note.keys|
      invariant notes == before + "([" + Terminated(keyTexts[..noteIdx], ", ")
    {
      var key := note.keys[noteIdx];
      var piece;
      if ignorePitch {
        piece := "None, ";
        assert piece == "None" + ", ";
      } else if note.noteType == "r" {
        piece := "'r', ";
        assert piece == "'r'" + ", ";
      } else {
        piece := "'" + key + "', ";
        assert piece == "'" + key + "'" + ", ";
      }
      TerminatedAppend(before + "([", keyTexts, noteIdx, ", ", piece);
      notes := notes + piece;
      noteIdx := noteIdx + 1;
    }
    assert keyTexts[..noteIdx] == keyTexts;
  }

  /** Appends the tuple of one note and a separator (dataManagerServices.ts:68-90). */
  method AppendTuple(before: string, note: StaveNote, ignorePitch: bool, ignoreRhythm: bool, durationText: string -> string)
    returns (notes: string)
    ensures notes == before + (TupleText(note, ignorePitch, ignoreRhythm, durationText) + ", ")
  {
    ghost var keyTexts := KeyTexts(note, ignorePitch);
    notes := AppendKeys(before, note, ignorePitch);
    CutAfterKeys(before, keyTexts);
    ghost var opening := KeysOpening(keyTexts);
    notes := JsSlice(notes, 0, -2) + "], ";
    assert notes == before + opening + "], ";
    ghost var rhythm := RhythmText(note, ignoreRhythm, durationText);
    var tail;
    if ignoreRhythm {
      tail := "None, None), ";
      assert tail == rhythm + "), ";
    } else {
      var dur := durationText(note.duration);
      var dots := if note.dots.Some? then note.dots.value else 0;
      tail := dur + ", " + NatToString(dots) + "), ";
      assert tail == rhythm + "), ";
    }
    TupleAppended(before, opening, rhythm);
    notes := notes + tail;
  }

  /**
   * Builds the notes parameter by appending and cutting trailing separators
   * (dataManagerServices.ts:65-96); the result is the list NotesQuery describes.
   */
  method CreateNotesQueryParam(melody: seq<StaveNote>, ignorePitch: bool, ignoreRhythm: bool, durationText: string -> string)
    returns (notes: string)
    ensures notes == NotesQuery(melody, ignorePitch, ignoreRhythm, durationText)
  {
    ghost var tuples := TupleTexts(melody, ignorePitch, ignoreRhythm, durationText);
    notes := "[";
    var k := 0;
    assert tuples[..0] == [];
    while k < |melody|
      invariant k <= |melody|
      invariant notes == "[" + Terminated(tuples[..k], ", ")
    {
      TerminatedAppend("[", tuples, k, ", ", tuples[k] + ", ");
      notes := AppendTuple(notes, melody[k], ignorePitch, ignoreRhythm, durationText);
      k := k + 1;
    }
    assert tuples[..k] == tuples;
    CloseNotesQuery(melody, ignorePitch, ignoreRhythm, durationText, notes);
    notes := JsSlice(notes, 0, -2) + "]";
  }

  /** Cutting the last separator of the terminated tuples and closing the bracket gives the query. */
  lemma CloseNotesQuery(melody: seq<StaveNote>, ignorePitch: bool, ignoreRhythm: bool, durationText: string -> string, notes: string)
    requires notes == "[" + Terminated(TupleTexts(melody, ignorePitch, ignoreRhythm, durationText), ", ")
    ensures JsSlice(notes, 0, -2) + "]" == NotesQuery(melody, ignorePitch, ignoreRhythm, durationText)
  {
    var tuples := TupleTexts(melody, ignorePitch, ignoreRhythm, durationText);
    if melody == [] {
      assert JsSlice(notes, 0, -2) == "";
    } else {
      var joined := "[" + Join(tuples, ", ");
      TerminatedIsJoinPlusSep(tuples, ", ");
      assert notes == joined + ", ";
      DropLastTwo(joined, ", ");
    }
  }

  /**
   * With pitch ignored, the parameter does not depend on the keys' values or
   * on which notes are rests: only on how many keys each note has.
   */
  lemma IgnoredPitchForgetsKeys(m1: seq<StaveNote>, m2: seq<StaveNote>, ignoreRhythm: bool, durationText: string -> string)
    requires |m1| == |m2|
    requires forall k | 0 <= k < |m1| ::
      |m1[k].keys| == |m2[k].keys| && m1[k].duration == m2[k].duration && m1[k].dots == m2[k].dots
    ensures NotesQuery(m1, true, ignoreRhythm, durationText) == NotesQuery(m2, true, ignoreRhythm, durationText)
  {
    assert TupleTexts(m1, true, ignoreRhythm, durationText) == TupleTexts(m2, true, ignoreRhythm, durationText) by {
      forall k | 0 <= k < |m1|
        ensures TupleText(m1[k], true, ignoreRhythm, durationText) == TupleText(m2[k], true, ignoreRhythm, durationText)
      {
        assert KeyTexts(m1[k], true) == KeyTexts(m2[k], true);
      }
    }
  }

  /** With rhythm ignored, the parameter does not depend on durations or dots. */
  lemma IgnoredRhythmForgetsDurations(m1: seq<StaveNote>, m2: seq<StaveNote>, ignorePitch: bool, durationText: string -> string)
    requires |m1| == |m2|
    requires forall k | 0 <= k < |m1| :: m1[k].keys == m2[k].keys && m1[k].noteType == m2[k].noteType
    ensures NotesQuery(m1, ignorePitch, true, durationText) == NotesQuery(m2, ignorePitch, true, durationText)
  {
    assert TupleTexts(m1, ignorePitch, true, durationText) == TupleTexts(m2, ignorePitch, true, durationText) by {
      forall k | 0 <= k < |m1|
        ensures TupleText(m1[k], ignorePitch, true, durationText) == TupleText(m2[k], ignorePitch, true, durationText)
      {
        assert KeyTexts(m1[k], ignorePitch) == KeyTexts(m2[k], ignorePitch);
      }
    }
  }

  // ------------------------------------------------------------ MEI metadata

  const PgHead: Pattern := ["<pgHead", "</pgHead>"]              // /<pgHead.*?<\/pgHead>/s
  const PgHeadWithTagEnd: Pattern := ["<pgHead", ">", "</pgHead>"] // /<pgHead.*?>.*?<\/pgHead>/s
  const Rend: Pattern := ["<rend", "</rend>"]                    // /<rend.*?<\/rend>/s
  const RendWithTagEnd: Pattern := ["<rend", ">", "</rend>"]     // /<rend.*?>.*?<\/rend>/gs
  const TitleTag: Pattern := ["<title>", "</title>"]             // /<title>.*?<\/title>/s
  const AuthorTag: Pattern := ["<author>", "</author>"]          // /<author>.*?<\/author>/s
  const Between: Pattern := [">", "<"]                           // />.*?</s

  /** `segment.match(/>.*?</s)?.[0].slice(1, -1)`: the text from the first `>` to the next `<`. */
  function InnerText(segment: string): (r: Option<string>)
    ensures r.Some? ==> '<' !in r.value
  {
    match Search(segment, Between, 0)
    case None => None
    case Some((i, e)) =>
      SearchIsLeftmostShortest(segment, Between, 0);
      ShortestPairHasNoInnerClose(segment, ">", "<", i, e);
      forall k | i + 1 <= k < e - 1 ensures segment[k] != '<' {
        assert !StartsAt(segment, k, "<");
        assert segment[k..k + 1] == [segment[k]];
      }
      Some(segment[i + 1..e - 1])
  }

  /** `s.match(outer)?.[0]?.match(inner)?.[n]?.match(/>.*?</s)?.[0].slice(1, -1)` */
  function TextInSection(s: string, outer: Pattern, inner: Pattern, n: nat): Option<string>
    requires outer != [] && inner != []
  {
    match MatchText(s, outer)
    case None => None
    case Some(section) =>
      match NthMatchText(section, inner, n)
      case None => None
      case Some(element) => InnerText(element)
  }

  /** `s.match(tag)?.[0].match(/>.*?</s)?.[0].slice(1, -1)` */
  function TagText(s: string, tag: Pattern): Option<string>
    requires tag != []
  {
    match MatchText(s, tag)
    case None => None
    case Some(element) => InnerText(element)
  }

  /** `fileName.replace(/\.mei$/i, '')`: a trailing `.mei`, in any case, is dropped. */
  function StripMeiExtension(fileName: string): (r: string)
  {
    if |fileName| >= 4 && LowerCase(fileName[|fileName| - 4..]) == ".mei" then fileName[..|fileName| - 4] else fileName
  }

  /** Removing the extension undoes adding it, whatever its case, and leaves other names alone. */
  lemma StripMeiExtensionInverts(base: string, extension: string, other: string)
    requires LowerCase(extension) == ".mei"
    requires |other| < 4 || LowerCase(other[|other| - 4..]) != ".mei"
    ensures StripMeiExtension(base + extension) == base
    ensures StripMeiExtension(other) == other
  {
    assert (base + extension)[|base + extension| - 4..] == extension;
    assert (base + extension)[..|base|] == base;
  }

  /**
   * The title (dataManagerServices.ts:98-115): the text of the first `<rend>`
   * of the first `<pgHead>`, else the `<title>` text, else the file name
   * without `.mei`, else "Titre inconnu". A step that finds an empty string
   * still wins.
   */
  function ExtractTitleFromMeiXML(meiXML: string, fileName: Option<string>): (r: string)
    ensures TextInSection(meiXML, PgHead, Rend, 0).Some? ==> r == TextInSection(meiXML, PgHead, Rend, 0).value
    ensures TextInSection(meiXML, PgHead, Rend, 0).None? && TagText(meiXML, TitleTag).Some? ==> r == TagText(meiXML, TitleTag).value
    ensures TextInSection(meiXML, PgHead, Rend, 0).None? && TagText(meiXML, TitleTag).None? ==>
      r == (if fileName.Some? then StripMeiExtension(fileName.value) else "Titre inconnu")
  {
    match TextInSection(meiXML, PgHead, Rend, 0)
    case Some(t) => t
    case None =>
      match TagText(meiXML, TitleTag)
      case Some(t) => t
      case None => if fileName.Some? then StripMeiExtension(fileName.value) else "Titre inconnu"
  }

  /** The author (dataManagerServices.ts:117-131): the second `<rend>` of the `<pgHead>`, else the `<author>` text, else "". */
  function ExtractAuthorFromMeiXML(meiXML: string): (r: string)
    ensures TextInSection(meiXML, PgHeadWithTagEnd, RendWithTagEnd, 1).Some? ==>
      r == TextInSection(meiXML, PgHeadWithTagEnd, RendWithTagEnd, 1).value
    ensures TextInSection(meiXML, PgHeadWithTagEnd, RendWithTagEnd, 1).None? ==>
      r == if TagText(meiXML, AuthorTag).Some? then TagText(meiXML, AuthorTag).value else ""
  {
    TextInSection(meiXML, PgHeadWithTagEnd, RendWithTagEnd, 1).GetOr(TagText(meiXML, AuthorTag).GetOr(""))
  }

  /** The comment (dataManagerServices.ts:133-147): the third `<rend>` of the `<pgHead>`, else the `<author>` text, else "". */
  function ExtractCommentFromMeiXML(meiXML: string): (r: string)
    ensures TextInSection(meiXML, PgHead, Rend, 2).Some? ==> r == TextInSection(meiXML, PgHead, Rend, 2).value
    ensures TextInSection(meiXML, PgHead, Rend, 2).None? ==>
      r == if TagText(meiXML, AuthorTag).Some? then TagText(meiXML, AuthorTag).value else ""
  {
    TextInSection(meiXML, PgHead, Rend, 2).GetOr(TagText(meiXML, AuthorTag).GetOr(""))
  }

  /**
   * Text found inside tags never contains `<`: every extracted field is such
   * a text, the file name without its extension, or one of the defaults.
   */
  lemma ExtractedFieldsAreTagFree(meiXML: string, fileName: Option<string>)
    ensures var title := ExtractTitleFromMeiXML(meiXML, fileName);
      '<' !in title || (fileName.Some? && title == StripMeiExtension(fileName.value))
    ensures var author := ExtractAuthorFromMeiXML(meiXML);
      '<' !in author
    ensures var comment := ExtractCommentFromMeiXML(meiXML);
      '<' !in comment
  {
  }

  datatype TitleAuthorComment = TitleAuthorComment(title: string, author: string, comment: string)

  /** The three fields together (dataManagerServices.ts:156-167). */
  function ExtractTitleAuthorComment(meiXML: string, fileName: Option<string>): (r: TitleAuthorComment)
    ensures r.title == ExtractTitleFromMeiXML(meiXML, fileName)
    ensures r.author == ExtractAuthorFromMeiXML(meiXML)
    ensures r.comment == ExtractCommentFromMeiXML(meiXML)
  {
    TitleAuthorComment(ExtractTitleFromMeiXML(meiXML, fileName), ExtractAuthorFromMeiXML(meiXML), ExtractCommentFromMeiXML(meiXML))
  }

  /** `meiXML.replace(/<pgHead.*?<\/pgHead>/s, '')` (dataManagerServices.ts:174-176). */
  function RemovePgHead(meiXML: string): (r: string)
    ensures |r| <= |meiXML|
  {
    match Search(meiXML, PgHead, 0)
    case None => meiXML
    case Some((i, e)) => meiXML[..i] + meiXML[e..]
  }

  /** Without a `<pgHead ... </pgHead>` span the document is returned unchanged, and with one it gets shorter. */
  lemma RemovePgHeadChangesOnlyWithSpan(meiXML: string)
    ensures RemovePgHead(meiXML) == meiXML <==> forall i, e :: !IsMatch(meiXML, PgHead, i, e)
  {
    SearchIsLeftmostShortest(meiXML, PgHead, 0);
  }

  /**
   * RemovePgHead deletes exactly the leftmost, shortest `<pgHead ... </pgHead>`
   * span and keeps everything before and after it.
   */
  lemma RemovePgHeadDeletesFirstSpan(meiXML: string, i: nat, e: nat)
    requires IsMatch(meiXML, PgHead, i, e)
    requires forall i': nat, e': nat | i' < i :: !IsMatch(meiXML, PgHead, i', e')
    requires forall e': nat | IsMatch(meiXML, PgHead, i, e') :: e <= e'
    ensures e <= |meiXML| && RemovePgHead(meiXML) == meiXML[..i] + meiXML[e..]
  {
    SearchFindsFirstMatch(meiXML, PgHead, 0, i, e);
  }
}
