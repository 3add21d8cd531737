/** The front end's helpers (src/lib/tools.ts): the remote name of a picked
    file, the sniffing of a pasted image, the timestamped names, the list of
    pending uploads, and two field-merging helpers. */
module Tools {
  import opened Wrappers
  import opened Types
  import AppStore
  import Manager

  // ---------------------------------------------------------------------
  // Relative paths
  // ---------------------------------------------------------------------

  /** Every occurrence of `sep` replaced by '/' (`replaceAll(s, "/")`). */
  function ReplaceSep(s: string, sep: char): (r: string)
    ensures |r| == |s|
    ensures forall i :: 0 <= i < |s| ==> r[i] == if s[i] == sep then '/' else s[i]
  {
    seq(|s|, i requires 0 <= i < |s| => if s[i] == sep then '/' else s[i])
  }

  /** `handleRelativePath` (lines 19-24): drop one leading separator, then
      write every separator as '/'. The platform separator `sep()` is a
      parameter. */
  function HandleRelativePath(path: string, sep: char): string
  {
    if |path| > 0 && path[0] == sep then ReplaceSep(path[1..], sep) else ReplaceSep(path, sep)
  }

  /** With a separator other than '/', no separator is left, each other
      character is kept in place, and one leading separator is gone. */
  lemma HandleRelativePathShape(path: string, sep: char)
    requires sep != '/'
    ensures var r := HandleRelativePath(path, sep);
      && sep !in r
      && var off := if |path| > 0 && path[0] == sep then 1 else 0;
         |r| == |path| - off
         && (forall i :: 0 <= i < |r| ==> (r[i] == '/' <==> path[i + off] == sep || path[i + off] == '/'))
         && forall i :: 0 <= i < |r| ==> path[i + off] != sep ==> r[i] == path[i + off]
  {
    var r := HandleRelativePath(path, sep);
    assert forall i :: 0 <= i < |r| ==> r[i] != sep;
  }

  /** Normalising an already normalised name changes nothing. */
  lemma HandleRelativePathIdempotent(path: string, sep: char)
    requires sep != '/'
    ensures HandleRelativePath(HandleRelativePath(path, sep), sep) == HandleRelativePath(path, sep)
  {
    var r := HandleRelativePath(path, sep);
    HandleRelativePathShape(path, sep);
  }

  /** A file `rest` below the picked path's parent `base` keeps `rest` as
      its remote name, written with '/'. */
  lemma RemoteNameBelowBase(base: string, rest: string, sep: char)
    ensures HandleRelativePath(Manager.RelativePath(base + [sep] + rest, base), sep) == ReplaceSep(rest, sep)
  {
    var p := base + [sep] + rest;
    assert base <= p;
    assert p[|base|..] == [sep] + rest;
    assert ([sep] + rest)[1..] == rest;
  }

  // ---------------------------------------------------------------------
  // Timestamps
  // ---------------------------------------------------------------------

  /** The local-time fields `new Date()` reports; `month` is `getMonth()`,
      counted from 0. */
  datatype LocalTime = LocalTime(year: int, month: int, day: int, hours: int, minutes: int, seconds: int)

  predicate ValidTime(t: LocalTime)
  {
    0 <= t.month < 12 && 1 <= t.day <= 31 && 0 <= t.hours < 24 && 0 <= t.minutes < 60 && 0 <= t.seconds < 60
  }

  function DigitChar(d: nat): (c: char)
    requires d < 10
    ensures '0' <= c <= '9' && c as int - '0' as int == d
  {
    ('0' as int + d) as char
  }

  /** `String(n)` for a non-negative integer. */
  function NatToString(n: nat): (s: string)
    ensures |s| >= 1
    ensures forall i :: 0 <= i < |s| ==> '0' <= s[i] <= '9'
    decreases n
  {
    if n < 10 then [DigitChar(n)] else NatToString(n / 10) + [DigitChar(n % 10)]
  }

  /** `String(n)` for any integer. */
  function IntToString(n: int): string
  {
    if n < 0 then "-" + NatToString(-n) else NatToString(n)
  }

  /** `padStart(2, "0")`: zeros in front up to two characters. */
  function PadStart2(s: string): (r: string)
    ensures |s| == 0 ==> r == "00"
    ensures |s| == 1 ==> r == "0" + s
    ensures |s| >= 2 ==> r == s
    ensures |r| == if |s| >= 2 then |s| else 2
  {
    if |s| == 0 then "00" else if |s| == 1 then "0" + s else s
  }

  /** `String(n).padStart(2, "0")`. */
  function Pad2(n: nat): string
  {
    PadStart2(NatToString(n))
  }

  /** The value of a string of decimal digits. */
  function DigitsValue(s: string): int
  {
    if s == [] then 0 else DigitsValue(s[..|s| - 1]) * 10 + (s[|s| - 1] as int - '0' as int)
  }

  /** Reading the decimal digits back gives the number. */
  lemma {:induction false} NatToStringValue(n: nat)
    ensures DigitsValue(NatToString(n)) == n
    decreases n
  {
    if n >= 10 {
      var s := NatToString(n);
      NatToStringValue(n / 10);
      assert s[..|s| - 1] == NatToString(n / 10);
      assert s[|s| - 1] == DigitChar(n % 10);
      assert DigitsValue(s) == (n / 10) * 10 + n % 10;
    }
  }

  /** One, two and four digits for the ranges a timestamp uses. */
  lemma NatToStringLength(n: nat)
    ensures n < 10 ==> |NatToString(n)| == 1
    ensures 10 <= n < 100 ==> |NatToString(n)| == 2
    ensures 1000 <= n < 10000 ==> |NatToString(n)| == 4
  {
    if 1000 <= n < 10000 {
      assert |NatToString(n / 10)| == 3 by {
        assert |NatToString(n / 100)| == 2 by {
          assert |NatToString(n / 1000)| == 1;
        }
      }
    }
  }

  /** Below 100, a padded number is its tens digit and its units digit. */
  lemma Pad2Digits(n: nat)
    requires n < 100
    ensures Pad2(n) == [DigitChar(n / 10), DigitChar(n % 10)]
  {
    if n >= 10 {
      assert NatToString(n / 10) == [DigitChar(n / 10)];
    }
  }

  /** A separator followed by a two-digit field. */
  function Field(sep: char, n: nat): string
  {
    [sep] + Pad2(n)
  }

  /** Three-character pieces, one after another. */
  function Concat(ps: seq<string>): string
  {
    if ps == [] then [] else ps[0] + Concat(ps[1..])
  }

  /** The fields after the year: month (counted from 1), day, hours,
      minutes and seconds, each with its separator. */
  function ClockFields(t: LocalTime): seq<string>
    requires ValidTime(t)
  {
    [Field('-', t.month + 1), Field('-', t.day), Field('_', t.hours), Field('-', t.minutes), Field('-', t.seconds)]
  }

  /** `generateTimestamp` (lines 9-12): `YYYY-MM-DD_HH-mm-ss`, the year
      written out and every later field padded to two digits. */
  function Timestamp(t: LocalTime): (s: string)
    requires ValidTime(t)
  {
    IntToString(t.year) + Concat(ClockFields(t))
  }

  /** `generateTimestampTextFileName` (lines 14-16). */
  function TimestampTextFileName(t: LocalTime): (s: string)
    requires ValidTime(t)
    ensures |s| == |Timestamp(t)| + 4
    ensures s[..|Timestamp(t)|] == Timestamp(t) && s[|Timestamp(t)|..] == ".txt"
  {
    Timestamp(t) + ".txt"
  }

  /** The fields read back from a 19-character timestamp. */
  function ParseTimestamp(s: string): Option<LocalTime>
  {
    if |s| == 19 && s[4] == '-' && s[7] == '-' && s[10] == '_' && s[13] == '-' && s[16] == '-' then
      Some(LocalTime(DigitsValue(s[..4]), DigitsValue(s[5..7]) - 1, DigitsValue(s[8..10]),
                     DigitsValue(s[11..13]), DigitsValue(s[14..16]), DigitsValue(s[17..])))
    else None
  }

  /** Every piece of three characters adds three characters. */
  lemma {:induction false} ConcatLength(ps: seq<string>)
    requires forall j :: 0 <= j < |ps| ==> |ps[j]| == 3
    ensures |Concat(ps)| == 3 * |ps|
  {
    if ps != [] {
      ConcatLength(ps[1..]);
    }
  }

  /** Piece k of three-character pieces starts at character 3k. */
  lemma {:induction false} ConcatAt(ps: seq<string>, k: nat)
    requires forall j :: 0 <= j < |ps| ==> |ps[j]| == 3
    requires k < |ps|
    ensures 3 * k + 3 <= |Concat(ps)| && Concat(ps)[3 * k..3 * k + 3] == ps[k]
    decreases k
  {
    var rest := ps[1..];
    var c := Concat(rest);
    ConcatLength(rest);
    if k == 0 {
      assert (ps[0] + c)[..3] == ps[0];
    } else {
      ConcatAt(rest, k - 1);
      assert (ps[0] + c)[3 * k..3 * k + 3] == c[3 * (k - 1)..3 * (k - 1) + 3];
    }
  }

  /** Each field after the year takes three characters. */
  lemma ClockFieldsLength(t: LocalTime)
    requires ValidTime(t)
    ensures forall j :: 0 <= j < |ClockFields(t)| ==> |ClockFields(t)[j]| == 3
  {
    Pad2Digits(t.month + 1);
    Pad2Digits(t.day);
    Pad2Digits(t.hours);
    Pad2Digits(t.minutes);
    Pad2Digits(t.seconds);
  }

  /** Field k after the year sits at character 4 + 3k of the timestamp. */
  lemma TimestampFieldAt(t: LocalTime, k: nat)
    requires ValidTime(t) && 1000 <= t.year < 10000 && k < 5
    ensures 7 + 3 * k <= |Timestamp(t)| && Timestamp(t)[4 + 3 * k..7 + 3 * k] == ClockFields(t)[k]
  {
    var y, fs := IntToString(t.year), ClockFields(t);
    NatToStringLength(t.year);
    ClockFieldsLength(t);
    ConcatAt(fs, k);
    assert (y + Concat(fs))[4 + 3 * k..7 + 3 * k] == Concat(fs)[3 * k..3 * k + 3];
  }

  /** For a four-digit year the timestamp reads back as the time it was
      made from: the year in the first four characters, then the month
      (counted from 1), day, hours, minutes and seconds. */
  lemma TimestampRoundTrip(t: LocalTime)
    requires ValidTime(t) && 1000 <= t.year < 10000
    ensures |Timestamp(t)| == 19
    ensures ParseTimestamp(Timestamp(t)) == Some(t)
  {
    var y, fs := IntToString(t.year), ClockFields(t);
    var s := Timestamp(t);
    assert |y| == 4 && DigitsValue(y) == t.year by { NatToStringValue(t.year); NatToStringLength(t.year); }
    assert |Concat(fs)| == 15 by {
      ClockFieldsLength(t);
      ConcatLength(fs);
    }
    assert s[..4] == y;
    TimestampFieldAt(t, 0);
    TimestampFieldAt(t, 1);
    TimestampFieldAt(t, 2);
    TimestampFieldAt(t, 3);
    TimestampFieldAt(t, 4);
    ParseLaidOut(s, t);
  }

  /** The separator and the value of a field found in place. */
  lemma FieldValue(s: string, at: nat, sep: char, n: nat)
    requires n < 100 && at + 3 <= |s| && s[at..at + 3] == Field(sep, n)
    ensures s[at] == sep && DigitsValue(s[at + 1..at + 3]) == n
  {
    Pad2Digits(n);
    var ds := [DigitChar(n / 10), DigitChar(n % 10)];
    assert DigitsValue(ds) == n by {
      assert ds[..1] == [DigitChar(n / 10)];
      assert [DigitChar(n / 10)][..0] == [];
      assert DigitsValue(ds[..1]) == n / 10;
    }
    assert s[at] == s[at..at + 3][0];
    assert s[at + 1..at + 3] == s[at..at + 3][1..];
  }

  /** A string laid out as a timestamp of `t` parses as `t`. */
  lemma ParseLaidOut(s: string, t: LocalTime)
    requires ValidTime(t) && 0 <= t.year
    requires |s| == 19 && DigitsValue(s[..4]) == t.year
    requires s[4..7] == Field('-', t.month + 1) && s[7..10] == Field('-', t.day) && s[10..13] == Field('_', t.hours)
    requires s[13..16] == Field('-', t.minutes) && s[16..19] == Field('-', t.seconds)
    ensures ParseTimestamp(s) == Some(t)
  {
    FieldValue(s, 4, '-', t.month + 1);
    FieldValue(s, 7, '-', t.day);
    FieldValue(s, 10, '_', t.hours);
    FieldValue(s, 13, '-', t.minutes);
    FieldValue(s, 16, '-', t.seconds);
    assert s[17..] == s[17..19];
  }

  // ---------------------------------------------------------------------
  // Pasted images
  // ---------------------------------------------------------------------

  predicate StartsWith(s: string, prefix: string)
  {
    prefix <= s
  }

  /** The image formats `addImage` recognises by their Base64 signature. */
  datatype ImageKind = Png | Jpeg | Gif | Webp | Unknown

  const PNG_SIGNATURE: string := "iVBORw0KGgo"
  const JPEG_SIGNATURE: string := "/9j/"
  const GIF_SIGNATURE: string := "R0lGODlh"
  const WEBP_SIGNATURE: string := "UklGR"

  /** The signature test of `addImage` (lines 69-83). The four signatures
      start with different characters, so each kind holds exactly when its
      signature starts the content. */
  function Sniff(content: string): (k: ImageKind)
    ensures k == Png <==> StartsWith(content, PNG_SIGNATURE)
    ensures k == Jpeg <==> StartsWith(content, JPEG_SIGNATURE)
    ensures k == Gif <==> StartsWith(content, GIF_SIGNATURE)
    ensures k == Webp <==> StartsWith(content, WEBP_SIGNATURE)
  {
    assert StartsWith(content, PNG_SIGNATURE) ==> content[0] == 'i';
    assert StartsWith(content, JPEG_SIGNATURE) ==> content[0] == '/';
    assert StartsWith(content, GIF_SIGNATURE) ==> content[0] == 'R';
    assert StartsWith(content, WEBP_SIGNATURE) ==> content[0] == 'U';
    if StartsWith(content, PNG_SIGNATURE) then Png
    else if StartsWith(content, JPEG_SIGNATURE) then Jpeg
    else if StartsWith(content, GIF_SIGNATURE) then Gif
    else if StartsWith(content, WEBP_SIGNATURE) then Webp
    else Unknown
  }

  /** The data-URL prefix put before recognised content. */
  function DataUrlPrefix(k: ImageKind): string
  {
    match k
    case Png => "data:image/png;base64,"
    case Jpeg => "data:image/jpeg;base64,"
    case Gif => "data:image/gif;base64,"
    case Webp => "data:image/webp;base64,"
    case Unknown => ""
  }

  /** The file-name suffix; unrecognised content is named ".png". */
  function Suffix(k: ImageKind): string
  {
    match k
    case Png => ".png"
    case Jpeg => ".jpg"
    case Gif => ".gif"
    case Webp => ".webp"
    case Unknown => ".png"
  }

  /** The content `addImage` stores. */
  function ImageContent(content: string): (r: string)
    ensures Sniff(content) == Unknown ==> r == content
  {
    DataUrlPrefix(Sniff(content)) + content
  }

  /** The data URL of recognised content names the format the signature
      shows, and dropping the prefix gives the pasted Base64 back. */
  lemma ImageContentRoundTrip(content: string)
    ensures var r := ImageContent(content);
      var p := DataUrlPrefix(Sniff(content));
      && p <= r && r[|p|..] == content
      && (Sniff(content) != Unknown ==> StartsWith(r, "data:image/"))
  {
    var r := ImageContent(content);
    var p := DataUrlPrefix(Sniff(content));
    assert r == p + content;
  }

  // ---------------------------------------------------------------------
  // Pending uploads (filesState.files)
  // ---------------------------------------------------------------------

  /** The `type` tag of a pending upload. */
  datatype EntryKind = FileEntry | TextEntry | ImageEntry

  /** One entry of `filesState.files`. */
  datatype Entry = Entry(kind: EntryKind, id: string, source: UploadSource, remoteFilename: string,
                         remoteFilenamePrefix: string)

  /** The entry `parsePaths` pushes for one file detail (lines 43-51). */
  function EntryOf(d: FileDetail, sep: char): Entry
  {
    Entry(FileEntry, d.id, FilePath(d.path), HandleRelativePath(d.relativePath, sep), "")
  }

  /** The entries pushed for the details of one path: none on failure or
      when the path holds no file. */
  function EntriesOfPath(details: Result<seq<FileDetail>, string>, sep: char): (es: seq<Entry>)
    ensures details.Ok? ==> |es| == |details.value| && forall i :: 0 <= i < |es| ==> es[i] == EntryOf(details.value[i], sep)
    ensures details.Err? ==> es == []
  {
    match details
    case Err(_) => []
    case Ok(ds) => seq(|ds|, i requires 0 <= i < |ds| => EntryOf(ds[i], sep))
  }

  /** The entries pushed for `paths`, path after path. */
  function EntriesOf(lookup: string -> Result<seq<FileDetail>, string>, paths: seq<string>, sep: char): seq<Entry>
  {
    if paths == [] then []
    else EntriesOf(lookup, paths[..|paths| - 1], sep) + EntriesOfPath(lookup(paths[|paths| - 1]), sep)
  }

  /** Some path's details could not be read. */
  predicate AnyFails(lookup: string -> Result<seq<FileDetail>, string>, paths: seq<string>)
  {
    paths != [] && (AnyFails(lookup, paths[..|paths| - 1]) || lookup(paths[|paths| - 1]).Err?)
  }

  /** Every entry `parsePaths` pushes is a file entry with an empty prefix
      whose remote name holds no platform separator. */
  lemma {:induction false} ParsedEntriesAreFiles(lookup: string -> Result<seq<FileDetail>, string>, paths: seq<string>, sep: char)
    requires sep != '/'
    ensures forall e :: e in EntriesOf(lookup, paths, sep) ==>
      e.kind == FileEntry && e.source.FilePath? && e.remoteFilenamePrefix == "" && sep !in e.remoteFilename
  {
    if paths != [] {
      ParsedEntriesAreFiles(lookup, paths[..|paths| - 1], sep);
      var last := EntriesOfPath(lookup(paths[|paths| - 1]), sep);
      forall e | e in last
        ensures e.kind == FileEntry && e.source.FilePath? && e.remoteFilenamePrefix == "" && sep !in e.remoteFilename
      {
        var i :| 0 <= i < |last| && last[i] == e;
        HandleRelativePathShape(lookup(paths[|paths| - 1]).value[i].relativePath, sep);
      }
    }
  }

  const DETAILS_FAILED: string := "获取文件详情失败"

  /** The alert message after `paths` were handled in order. */
  function AlertAfter(lookup: string -> Result<seq<FileDetail>, string>, paths: seq<string>, initial: string): string
  {
    if paths == [] then initial
    else if lookup(paths[|paths| - 1]).Err? then DETAILS_FAILED
    else AlertAfter(lookup, paths[..|paths| - 1], initial)
  }

  /** The alert is set exactly when some path fails. */
  lemma {:induction false} AlertAfterFails(lookup: string -> Result<seq<FileDetail>, string>, paths: seq<string>, initial: string)
    ensures AlertAfter(lookup, paths, initial) == if AnyFails(lookup, paths) then DETAILS_FAILED else initial
  {
    if paths != [] {
      AlertAfterFails(lookup, paths[..|paths| - 1], initial);
    }
  }

  class FilesState {
    var files: seq<Entry>

    constructor()
      ensures files == []
    {
      files := [];
    }

    /** `addText` (lines 57-65); `id` stands for `Date.now().toString()`. */
    method AddText(textContent: string, remoteFilename: string, id: string)
      modifies this
      ensures files == old(files) + [Entry(TextEntry, id, FileContent(textContent), remoteFilename, "")]
    {
      files := files + [Entry(TextEntry, id, FileContent(textContent), remoteFilename, "")];
    }

    /** `addImage` (lines 67-91); the time and the id are parameters. */
    method AddImage(imageContent: string, now: LocalTime, id: string)
      requires ValidTime(now)
      modifies this
      ensures files == old(files) + [Entry(ImageEntry, id, FileContent(ImageContent(imageContent)),
                                           Timestamp(now) + Suffix(Sniff(imageContent)), "")]
    {
      var remoteFilename := Timestamp(now);
      var content := imageContent;
      if StartsWith(content, PNG_SIGNATURE) {
        content := "data:image/png;base64," + content;
        remoteFilename := remoteFilename + ".png";
      } else if StartsWith(content, JPEG_SIGNATURE) {
        content := "data:image/jpeg;base64," + content;
        remoteFilename := remoteFilename + ".jpg";
      } else if StartsWith(content, GIF_SIGNATURE) {
        content := "data:image/gif;base64," + content;
        remoteFilename := remoteFilename + ".gif";
      } else if StartsWith(content, WEBP_SIGNATURE) {
        content := "data:image/webp;base64," + content;
        remoteFilename := remoteFilename + ".webp";
      } else {
        remoteFilename := remoteFilename + ".png";
      }
      files := files + [Entry(ImageEntry, id, FileContent(content), remoteFilename, "")];
    }

    /** The push of one path's details (lines 41-53). */
    method PushDetails(details: seq<FileDetail>, sep: char)
      modifies this
      ensures files == old(files) + EntriesOfPath(Ok(details), sep)
    {
      var j := 0;
      while j < |details|
        invariant 0 <= j <= |details|
        invariant files == old(files) + EntriesOfPath(Ok(details), sep)[..j]
      {
        files := files + [EntryOf(details[j], sep)];
        assert EntriesOfPath(Ok(details), sep)[..j + 1] == EntriesOfPath(Ok(details), sep)[..j] + [EntryOf(details[j], sep)];
        j := j + 1;
      }
      assert EntriesOfPath(Ok(details), sep)[..j] == EntriesOfPath(Ok(details), sep);
    }

    /** `parsePaths` (lines 26-55) with the paths handled one after another:
        `lookup` stands for the `get_file_details` command, a failure sets
        the alert, and the details of each path are pushed in order. */
    method ParsePaths(paths: seq<string>, lookup: string -> Result<seq<FileDetail>, string>, sep: char,
                      alert: AppStore.AlertMessage)
      modifies this, alert
      ensures files == old(files) + EntriesOf(lookup, paths, sep)
      ensures alert.message == AlertAfter(lookup, paths, old(alert.message))
    {
      ghost var files0, message0 := files, alert.message;
      var i := 0;
      while i < |paths|
        invariant 0 <= i <= |paths|
        invariant files == files0 + EntriesOf(lookup, paths[..i], sep)
        invariant alert.message == AlertAfter(lookup, paths[..i], message0)
      {
        ParsePath(paths[i], lookup, sep, alert);
        EntriesOfSnoc(lookup, paths, i, sep, message0);
        i := i + 1;
      }
      assert paths[..i] == paths;
    }

    /** The handling of one path (lines 39-54). */
    method ParsePath(path: string, lookup: string -> Result<seq<FileDetail>, string>, sep: char,
                     alert: AppStore.AlertMessage)
      modifies this, alert
      ensures files == old(files) + EntriesOfPath(lookup(path), sep)
      ensures alert.message == if lookup(path).Err? then DETAILS_FAILED else old(alert.message)
    {
      var details := lookup(path);
      if details.Err? {
        alert.SetAlert(DETAILS_FAILED);
        assert EntriesOfPath(details, sep) == [];
      } else if |details.value| > 0 {
        PushDetails(details.value, sep);
      } else {
        assert EntriesOfPath(details, sep) == [];
      }
    }
  }

  /** One more path: its entries come last, and it may add a failure. */
  lemma EntriesOfSnoc(lookup: string -> Result<seq<FileDetail>, string>, paths: seq<string>, i: nat, sep: char,
                      initial: string)
    requires i < |paths|
    ensures EntriesOf(lookup, paths[..i + 1], sep) == EntriesOf(lookup, paths[..i], sep) + EntriesOfPath(lookup(paths[i]), sep)
    ensures AlertAfter(lookup, paths[..i + 1], initial)
         == if lookup(paths[i]).Err? then DETAILS_FAILED else AlertAfter(lookup, paths[..i], initial)
  {
    assert paths[..i + 1][..i] == paths[..i];
  }

  // ---------------------------------------------------------------------
  // Field merging
  // ---------------------------------------------------------------------

  /** A plain object, as its own enumerable fields. */
  class Obj<V> {
    var fields: map<string, V>

    constructor(fs: map<string, V>)
      ensures fields == fs
    {
      fields := fs;
    }
  }

  /** The fields of `target` together with those of `source` it lacks. */
  function FillMissing<V>(target: map<string, V>, source: map<string, V>): (m: map<string, V>)
    ensures m.Keys == target.Keys + source.Keys
    ensures forall k :: k in target ==> m[k] == target[k]
    ensures forall k :: k in source && k !in target ==> m[k] == source[k]
  {
    source + target
  }

  /** The fields of `target` overwritten by those of `source`. */
  function Overwrite<V>(target: map<string, V>, source: map<string, V>): (m: map<string, V>)
    ensures m.Keys == target.Keys + source.Keys
    ensures forall k :: k in source ==> m[k] == source[k]
    ensures forall k :: k in target && k !in source ==> m[k] == target[k]
  {
    target + source
  }

  /** Filling in fields that already exist everywhere changes nothing, and
      filling twice is filling once. */
  lemma FillMissingIdempotent<V>(target: map<string, V>, source: map<string, V>)
    ensures FillMissing(FillMissing(target, source), source) == FillMissing(target, source)
    ensures source.Keys <= target.Keys ==> FillMissing(target, source) == target
  {
  }

  /** `copyFieldsSimple` (lines 112-115): `Object.assign(target, source)`,
      returning `target` itself. */
  method CopyFieldsSimple<V>(source: Obj<V>, target: Obj<V>) returns (r: Obj<V>)
    modifies target
    ensures r == target
    ensures target.fields == Overwrite(old(target.fields), old(source.fields))
  {
    target.fields := target.fields + source.fields;
    r := target;
  }

  /** `copyNotExistsFields` (lines 117-125): for each key of `source` that
      `target` lacks, copy the value; return `target` itself. The two may be
      the same object, in which case nothing changes. */
  method CopyNotExistsFields<V>(source: Obj<V>, target: Obj<V>) returns (r: Obj<V>)
    modifies target
    ensures r == target
    ensures target.fields == FillMissing(old(target.fields), old(source.fields))
  {
    var keys := source.fields.Keys;
    ghost var src := source.fields;
    while keys != {}
      invariant keys <= src.Keys
      invariant source == target ==> source.fields == old(target.fields) && src == source.fields
      invariant source != target ==> source.fields == src
      invariant src == old(source.fields)
      invariant target.fields.Keys == old(target.fields).Keys + (src.Keys - keys)
      invariant forall k :: k in old(target.fields) ==> target.fields[k] == old(target.fields)[k]
      invariant forall k :: k in src && k !in keys && k !in old(target.fields) ==> target.fields[k] == src[k]
      decreases keys
    {
      var key :| key in keys;
      if key !in target.fields {
        target.fields := target.fields[key := source.fields[key]];
      }
      keys := keys - {key};
    }
    assert target.fields == FillMissing(old(target.fields), old(source.fields));
    r := target;
  }
}
