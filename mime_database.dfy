/** KisMimeDatabase (libs/koplugin/KisMimeDatabase.cpp): Krita's own table
    of mime types, each with a description and a list of suffix patterns,
    consulted before the system mime database.  The table is static and is
    filled on first use; the lookups scan it for the first matching entry.
    The system database is a parameter of each lookup, and the descriptions
    are the untranslated strings. */
module MimeDatabase {
  import opened Wrappers

  /** KisMimeDatabase::KisMimeType. */
  datatype MimeType = MimeType(mimeType: string, description: string, suffixes: seq<string>)

  /** One block of fillMimeData: the mime type and description it sets and
      the patterns it appends to the reused value's suffix list. */
  datatype Row = Row(mimeType: string, description: string, patterns: seq<string>)

  /** What the system database answers for a file or a mime type name. */
  datatype SystemMime = SystemMime(name: string, comment: string, suffixes: seq<string>, preferredSuffix: string)

  const OctetStream: string := "application/octet-stream"

  /** The thirteen blocks of fillMimeData, in order. */
  const GimpBrush := Row("image/x-gimp-brush", "Gimp Brush", ["*.gbr,*vbr"])
  const GimpHose := Row("image/x-gimp-brush", "Gimp Image Hose Brush", ["*.gih"])
  const BrushPreset := Row("application/x-krita-paintoppreset", "Krita Brush Preset", ["*.kpp"])
  const Assistant := Row("application/x-krita-assistant", "Krita Assistant", ["*.paintingassistant"])
  const R16 := Row("image/x-r16", "R16 Heightmap", ["*.r16"])
  const R8 := Row("image/x-r8", "R8 Heightmap", ["*.r8"])
  const Spriter := Row("application/x-spriter", "Spriter SCML", ["*.scml"])
  const StarviewMetafile := Row("image/x-svm", "Starview Metafile", ["*.svm"])
  const OpenRaster := Row("image/openraster", "OpenRaster Image", ["*.ora"])
  const LayerStyles := Row("application/x-photoshop-style-library", "Photoshop Layer Style Library", ["*.asl"])
  const GimpPalette := Row("application/x-gimp-color-palette", "Gimp Color Palette", ["*.gpl"])
  const OpenColorIO := Row("application/x-opencolorio-configuration", "OpenColorIO Configuration", ["*.ocio"])
  const RecordedMacro := Row("application/x-krita-recorded-macro", "Krita Recorded Action", ["*.krarec"])

  const WrittenRows: seq<Row> :=
    [GimpBrush, GimpHose, BrushPreset, Assistant, R16, R8, Spriter, StarviewMetafile, OpenRaster,
     LayerStyles, GimpPalette, OpenColorIO, RecordedMacro]

  /** The blocks as evidently meant: the Gimp brush block lists its two
      patterns separately. */
  const IntendedRows: seq<Row> := WrittenRows[0 := GimpBrush.(patterns := ["*.gbr", "*.vbr"])]

  /** The table fillMimeData builds: one KisMimeType value is reused, so
      each block's patterns are appended to those of all earlier blocks
      (`acc` holds the reused value's suffixes so far). */
  function Accumulate(rows: seq<Row>, acc: seq<string>): (t: seq<MimeType>)
    ensures |t| == |rows|
    ensures forall k | 0 <= k < |t| :: t[k].mimeType == rows[k].mimeType && t[k].description == rows[k].description
    ensures |t| > 0 ==> t[0].suffixes == acc + rows[0].patterns
    ensures forall k | 0 <= k < |t| :: acc <= t[k].suffixes
    ensures forall k | 0 < k < |t| :: t[k - 1].suffixes + rows[k].patterns == t[k].suffixes
  {
    if rows == [] then []
    else
      var s := acc + rows[0].patterns;
      [MimeType(rows[0].mimeType, rows[0].description, s)] + Accumulate(rows[1..], s)
  }

  /** The table with each entry holding only its own block's patterns. */
  function Separate(rows: seq<Row>): (t: seq<MimeType>)
    ensures |t| == |rows|
    ensures forall k | 0 <= k < |rows| ::
              t[k] == MimeType(rows[k].mimeType, rows[k].description, rows[k].patterns)
  {
    if rows == [] then []
    else [MimeType(rows[0].mimeType, rows[0].description, rows[0].patterns)] + Separate(rows[1..])
  }

  /** All patterns of the given blocks, in order. */
  function Patterns(rows: seq<Row>): seq<string>
  {
    if rows == [] then [] else rows[0].patterns + Patterns(rows[1..])
  }

  function AsWrittenTable(): seq<MimeType>
  {
    Accumulate(WrittenRows, [])
  }

  function IntendedTable(): seq<MimeType>
  {
    Separate(IntendedRows)
  }

  /** Every lookup starts with fillMimeData: an empty table is filled, a
      filled one is left as it is. */
  function Filled(table: seq<MimeType>): (r: seq<MimeType>)
    ensures |r| > 0
    ensures table != [] ==> r == table
    ensures table == [] ==> r == AsWrittenTable()
  {
    if table == [] then AsWrittenTable() else table
  }

  /** The index of the first entry listing `pattern`, if any. */
  function FirstWithPattern(t: seq<MimeType>, pattern: string): (r: Option<nat>)
    ensures r.Some? ==> r.value < |t| && pattern in t[r.value].suffixes &&
                        forall j | 0 <= j < r.value :: pattern !in t[j].suffixes
    ensures r.None? ==> forall j | 0 <= j < |t| :: pattern !in t[j].suffixes
  {
    if t == [] then None
    else if pattern in t[0].suffixes then Some(0)
    else match FirstWithPattern(t[1..], pattern)
      case None => None
      case Some(k) => Some(k + 1)
  }

  /** The index of the first entry for mime type `name`, if any. */
  function FirstWithMimeType(t: seq<MimeType>, name: string): (r: Option<nat>)
    ensures r.Some? ==> r.value < |t| && t[r.value].mimeType == name &&
                        forall j | 0 <= j < r.value :: t[j].mimeType != name
    ensures r.None? ==> forall j | 0 <= j < |t| :: t[j].mimeType != name
  {
    if t == [] then None
    else if t[0].mimeType == name then Some(0)
    else match FirstWithMimeType(t[1..], name)
      case None => None
      case Some(k) => Some(k + 1)
  }

  predicate StartsWith(s: string, prefix: string)
  {
    prefix <= s
  }

  /** The pattern mimeTypeForSuffix looks for: "*." is put in front unless
      the suffix already starts with it. */
  function SuffixPattern(suffix: string): (r: string)
    ensures StartsWith(r, "*.")
    ensures StartsWith(suffix, "*.") ==> r == suffix
    ensures !StartsWith(suffix, "*.") ==> r == "*." + suffix
  {
    if StartsWith(suffix, "*.") then suffix else "*." + suffix
  }

  /** The index of the last occurrence of `c`, -1 when there is none. */
  function LastIndexOfChar(s: string, c: char): (r: int)
    ensures -1 <= r < |s|
    ensures r == -1 <==> c !in s
    ensures r >= 0 ==> s[r] == c && c !in s[r + 1..]
  {
    if |s| == 0 then -1
    else if s[|s| - 1] == c then |s| - 1
    else
      var init := s[..|s| - 1];
      var k := LastIndexOfChar(init, c);
      assert s == init + [s[|s| - 1]];
      if k >= 0 then
        assert s[k + 1..] == init[k + 1..] + [s[|s| - 1]];
        k
      else k
  }

  /** QFileInfo::suffix: what follows the last '.' of the file's name (the
      part after the last '/'); empty when the name has no '.'. */
  function FileSuffix(file: string): (r: string)
    ensures '.' !in r && '/' !in r
  {
    var name := file[LastIndexOfChar(file, '/') + 1..];
    var dot := LastIndexOfChar(name, '.');
    if dot == -1 then [] else name[dot + 1..]
  }

  /** The system database's answer, unless it is the octet-stream
      catch-all, in which case the empty string. */
  function SystemAnswer(name: string): (r: string)
    ensures r == "" || r == name
    ensures name != OctetStream ==> r == name
  {
    if name != OctetStream then name else ""
  }

  /** mimeTypeForSuffix. `forFile` stands for the system database's
      mimeTypeForFile. */
  function MimeTypeForSuffix(table: seq<MimeType>, suffix: string, forFile: string -> SystemMime): (r: string)
  {
    var t := Filled(table);
    var s := SuffixPattern(suffix);
    match FirstWithPattern(t, s)
      case Some(k) => t[k].mimeType
      case None => SystemAnswer(forFile(s).name)
  }

  /** mimeTypeForFile: the pattern is "*." and the file's suffix; the
      system database is asked about the whole file name. */
  function MimeTypeForFile(table: seq<MimeType>, file: string, forFile: string -> SystemMime): (r: string)
  {
    var t := Filled(table);
    match FirstWithPattern(t, "*." + FileSuffix(file))
      case Some(k) => t[k].mimeType
      case None => SystemAnswer(forFile(file).name)
  }

  /** descriptionForMimeType. `forName` stands for the system database's
      mimeTypeForName. */
  function DescriptionForMimeType(table: seq<MimeType>, name: string, forName: string -> SystemMime): (r: string)
  {
    var t := Filled(table);
    match FirstWithMimeType(t, name)
      case Some(k) => t[k].description
      case None => if forName(name).name != OctetStream then forName(name).comment else ""
  }

  /** QStringList::removeAll. */
  function RemoveAll(l: seq<string>, x: string): (r: seq<string>)
    ensures x !in r
    ensures forall y | y != x :: multiset(r)[y] == multiset(l)[y]
    ensures x !in l ==> r == l
  {
    if l == [] then []
    else
      assert l == [l[0]] + l[1..];
      if l[0] == x then RemoveAll(l[1..], x)
      else [l[0]] + RemoveAll(l[1..], x)
  }

  /** removeAll works element by element: on a concatenation it is the
      concatenation of its results, so together with the ensures above
      (nothing removed when the string is absent, every copy removed when
      present) the remaining strings keep their order. */
  lemma {:induction false} RemoveAllConcat(a: seq<string>, b: seq<string>, x: string)
    ensures RemoveAll(a + b, x) == RemoveAll(a, x) + RemoveAll(b, x)
    decreases |a|
  {
    if a == [] {
      assert a + b == b;
    } else {
      assert (a + b)[1..] == a[1..] + b;
      assert (a + b)[0] == a[0];
      RemoveAllConcat(a[1..], b, x);
    }
  }

  /** One occurrence is dropped; any other string is kept. */
  lemma {:induction false} RemoveAllSingle(y: string, x: string)
    ensures RemoveAll([y], x) == if y == x then [] else [y]
  {
    assert [y][1..] == [];
  }

  /** The fallback reorder: the preferred suffix is moved to the front
      unless it is there already. */
  function PreferredFirst(suffixes: seq<string>, preferred: string): (r: seq<string>)
    requires |suffixes| > 0
    ensures |r| > 0 && r[0] == preferred
    ensures preferred == suffixes[0] ==> r == suffixes
    ensures preferred != suffixes[0] ==>
              multiset(r)[preferred] == 1 && preferred !in r[1..] &&
              forall y | y != preferred :: multiset(r)[y] == multiset(suffixes)[y]
    ensures preferred != suffixes[0] ==> r == [preferred] + RemoveAll(suffixes, preferred)
  {
    if preferred != suffixes[0] then
      var rest := RemoveAll(suffixes, preferred);
      assert multiset([preferred] + rest) == multiset{preferred} + multiset(rest);
      assert multiset(rest)[preferred] == 0;
      assert ([preferred] + rest)[1..] == rest;
      [preferred] + rest
    else suffixes
  }

  /** suffixesForMimeType: the first table entry's patterns; otherwise
      the system database's suffixes with the preferred one first; with
      neither, [".kra"]. */
  function SuffixesForMimeType(table: seq<MimeType>, name: string, forName: string -> SystemMime): (r: seq<string>)
    ensures |r| > 0 || FirstWithMimeType(Filled(table), name).Some?
  {
    var t := Filled(table);
    match FirstWithMimeType(t, name)
      case Some(k) => t[k].suffixes
      case None =>
        var mime := forName(name);
        if mime.name != OctetStream && mime.suffixes != [] then PreferredFirst(mime.suffixes, mime.preferredSuffix)
        else [".kra"]
  }

  // ---------------------------------------------------------------------
  // Properties

  /** Entry k of the filled table lists the patterns of blocks 0..k: the
      reused value's suffix list only grows. */
  lemma {:induction false} AccumulatedSuffixes(rows: seq<Row>, acc: seq<string>, k: nat)
    requires k < |rows|
    ensures Accumulate(rows, acc)[k].suffixes == acc + Patterns(rows[..k + 1])
    ensures Accumulate(rows, acc)[k].mimeType == rows[k].mimeType
    ensures Accumulate(rows, acc)[k].description == rows[k].description
  {
    if k == 0 {
      assert rows[..1] == [rows[0]];
      assert Patterns(rows[..1]) == rows[0].patterns + Patterns([]);
    } else {
      AccumulatedSuffixes(rows[1..], acc + rows[0].patterns, k - 1);
      assert rows[..k + 1] == [rows[0]] + rows[1..][..k];
      assert Patterns(rows[..k + 1]) == rows[0].patterns + Patterns(rows[1..][..k]);
    }
  }

  /** Looking a pattern up by suffix finds the block that first listed it,
      so the growing suffix lists do not change which mime type a suffix
      maps to. */
  lemma {:induction false} SuffixLookupUnaffected(rows: seq<Row>, acc: seq<string>, pattern: string)
    requires pattern !in acc
    ensures FirstWithPattern(Accumulate(rows, acc), pattern) == FirstWithPattern(Separate(rows), pattern)
  {
    if rows != [] {
      var s := acc + rows[0].patterns;
      var a := Accumulate(rows, acc);
      var b := Separate(rows);
      assert a[0].suffixes == s && b[0].suffixes == rows[0].patterns;
      if pattern !in rows[0].patterns {
        assert pattern !in s;
        SuffixLookupUnaffected(rows[1..], s, pattern);
        assert a[1..] == Accumulate(rows[1..], s);
        assert b[1..] == Separate(rows[1..]);
      }
    }
  }

  /** The same for mime type names: the filled table and its intended form
      agree on which entry a name finds. */
  lemma {:induction false} NameLookupUnaffected(rows: seq<Row>, acc: seq<string>, name: string)
    ensures FirstWithMimeType(Accumulate(rows, acc), name) == FirstWithMimeType(Separate(rows), name)
  {
    if rows != [] {
      var s := acc + rows[0].patterns;
      if rows[0].mimeType != name {
        NameLookupUnaffected(rows[1..], s, name);
        assert Accumulate(rows, acc)[1..] == Accumulate(rows[1..], s);
        assert Separate(rows)[1..] == Separate(rows[1..]);
      }
    }
  }

  /** Filling is done once: a lookup on the filled table fills nothing. */
  lemma FilledIdempotent(table: seq<MimeType>)
    ensures Filled(Filled(table)) == Filled(table)
  {
  }

  /** A suffix given with or without its "*." maps to the same mime type. */
  lemma SuffixPatternPrefixOptional(table: seq<MimeType>, suffix: string, forFile: string -> SystemMime)
    ensures MimeTypeForSuffix(table, "*." + suffix, forFile) == MimeTypeForSuffix(table, suffix, forFile)
            || StartsWith(suffix, "*.")
  {
    if !StartsWith(suffix, "*.") {
      assert SuffixPattern("*." + suffix) == "*." + suffix;
    }
  }

  /** A suffix the table lists maps to the mime type of the first entry
      listing it, whatever the system database says; one it does not list
      falls through to the system database. */
  lemma MimeTypeForSuffixFirstMatch(table: seq<MimeType>, suffix: string, forFile: string -> SystemMime, k: nat)
    requires k < |Filled(table)|
    requires SuffixPattern(suffix) in Filled(table)[k].suffixes
    requires forall j | 0 <= j < k :: SuffixPattern(suffix) !in Filled(table)[j].suffixes
    ensures MimeTypeForSuffix(table, suffix, forFile) == Filled(table)[k].mimeType
  {
  }

  /** The fallback: with no table entry, the system answer unless it is
      the octet-stream catch-all. */
  lemma MimeTypeForSuffixFallback(table: seq<MimeType>, suffix: string, forFile: string -> SystemMime)
    requires forall j | 0 <= j < |Filled(table)| :: SuffixPattern(suffix) !in Filled(table)[j].suffixes
    ensures var name := forFile(SuffixPattern(suffix)).name;
            MimeTypeForSuffix(table, suffix, forFile) == (if name != OctetStream then name else "")
  {
    assert FirstWithPattern(Filled(table), SuffixPattern(suffix)).None?;
  }

  /** descriptionForMimeType and suffixesForMimeType read the fields of the
      same entry: the first for that mime type. */
  lemma NameLookupsReadFirstEntry(table: seq<MimeType>, name: string, forName: string -> SystemMime, k: nat)
    requires k < |Filled(table)| && Filled(table)[k].mimeType == name
    requires forall j | 0 <= j < k :: Filled(table)[j].mimeType != name
    ensures DescriptionForMimeType(table, name, forName) == Filled(table)[k].description
    ensures SuffixesForMimeType(table, name, forName) == Filled(table)[k].suffixes
  {
  }

  /** With no entry and no usable system answer the suffix list is
      [".kra"]. */
  lemma SuffixesDefaultToKra(table: seq<MimeType>, name: string, forName: string -> SystemMime)
    requires FirstWithMimeType(Filled(table), name).None?
    requires forName(name).name == OctetStream || forName(name).suffixes == []
    ensures SuffixesForMimeType(table, name, forName) == [".kra"]
  {
  }

  /** A file's mime type is the one its suffix maps to, when the table
      lists that suffix. */
  lemma MimeTypeForFileUsesSuffix(table: seq<MimeType>, file: string, forFile: string -> SystemMime)
    requires FirstWithPattern(Filled(table), "*." + FileSuffix(file)).Some?
    ensures MimeTypeForFile(table, file, forFile) == MimeTypeForSuffix(table, FileSuffix(file), forFile)
  {
    var s := FileSuffix(file);
    SuffixIsNotPattern(s);
    assert SuffixPattern(s) == "*." + s;
  }

  /** A file whose suffix the table does not list gets the system
      database's answer for the whole file name, or the empty string for
      octet-stream. */
  lemma MimeTypeForFileFallback(table: seq<MimeType>, file: string, forFile: string -> SystemMime)
    requires forall j | 0 <= j < |Filled(table)| :: "*." + FileSuffix(file) !in Filled(table)[j].suffixes
    ensures var name := forFile(file).name;
            MimeTypeForFile(table, file, forFile) == (if name != OctetStream then name else "")
  {
    assert FirstWithPattern(Filled(table), "*." + FileSuffix(file)).None?;
  }

  /** A mime type the table does not list is described by the system
      database's comment, or by the empty string for octet-stream. */
  lemma DescriptionFallback(table: seq<MimeType>, name: string, forName: string -> SystemMime)
    requires forall j | 0 <= j < |Filled(table)| :: Filled(table)[j].mimeType != name
    ensures DescriptionForMimeType(table, name, forName)
            == (if forName(name).name != OctetStream then forName(name).comment else "")
  {
    assert FirstWithMimeType(Filled(table), name).None?;
  }

  /** A suffix without dots never already starts with "*.". */
  lemma SuffixIsNotPattern(s: string)
    requires '.' !in s
    ensures !StartsWith(s, "*.")
  {
    if |s| >= 2 {
      assert s[1] != '.';
      assert s[..2] != "*.";
    }
  }

  /** Appending one block's patterns to those of the blocks before it. */
  lemma {:induction false} PatternsSnoc(rows: seq<Row>, k: nat)
    requires k < |rows|
    ensures Patterns(rows[..k + 1]) == Patterns(rows[..k]) + rows[k].patterns
  {
    if k > 0 {
      PatternsSnoc(rows[1..], k - 1);
      assert rows[..k + 1][1..] == rows[1..][..k];
      assert rows[..k][1..] == rows[1..][..k - 1];
    } else {
      assert rows[..1] == [rows[0]];
    }
  }

  /** Accumulate, one block at a time from the end. */
  lemma {:induction false} AccumulateSnoc(rs: seq<Row>, r: Row, acc: seq<string>)
    ensures Accumulate(rs + [r], acc)
            == Accumulate(rs, acc) + [MimeType(r.mimeType, r.description, acc + Patterns(rs) + r.patterns)]
  {
    var last := MimeType(r.mimeType, r.description, acc + Patterns(rs) + r.patterns);
    if rs == [] {
      assert rs + [r] == [r];
      assert acc + Patterns(rs) + r.patterns == acc + r.patterns;
      assert Accumulate([r], acc) == [last] + Accumulate([], acc + r.patterns);
    } else {
      var s := acc + rs[0].patterns;
      var head := MimeType(rs[0].mimeType, rs[0].description, s);
      assert (rs + [r])[0] == rs[0] && (rs + [r])[1..] == rs[1..] + [r];
      AccumulateSnoc(rs[1..], r, s);
      assert acc + Patterns(rs) + r.patterns == s + Patterns(rs[1..]) + r.patterns;
      calc {
        Accumulate(rs + [r], acc);
        [head] + Accumulate(rs[1..] + [r], s);
        [head] + (Accumulate(rs[1..], s) + [last]);
        ([head] + Accumulate(rs[1..], s)) + [last];
        Accumulate(rs, acc) + [last];
      }
    }
  }

  /** What fillMimeData has built after the given blocks: the table so
      far and the reused value. */
  function Fill(blocks: seq<Row>): (r: (seq<MimeType>, MimeType))
    ensures |r.0| == |blocks|
    decreases |blocks|
  {
    if blocks == [] then ([], MimeType("", "", []))
    else
      var (t, m) := Fill(blocks[..|blocks| - 1]);
      var row := blocks[|blocks| - 1];
      var m' := m.(mimeType := row.mimeType, description := row.description, suffixes := m.suffixes + row.patterns);
      (t + [m'], m')
  }

  /** One more block of fillMimeData. */
  lemma FillStep(blocks: seq<Row>, row: Row, t: seq<MimeType>, m: MimeType)
    requires (t, m) == Fill(blocks)
    ensures var m' := m.(mimeType := row.mimeType, description := row.description, suffixes := m.suffixes + row.patterns);
            Fill(blocks + [row]) == (t + [m'], m')
  {
    assert (blocks + [row])[..|blocks|] == blocks;
  }

  /** Block by block, fillMimeData builds the accumulated table. */
  lemma {:induction false} FillAccumulates(blocks: seq<Row>)
    ensures Fill(blocks).0 == Accumulate(blocks, [])
    ensures Fill(blocks).1.suffixes == Patterns(blocks)
    decreases |blocks|
  {
    if blocks != [] {
      var n := |blocks|;
      var init, last := blocks[..n - 1], blocks[n - 1];
      assert blocks == init + [last];
      FillAccumulates(init);
      var (t, m) := Fill(init);
      FillStep(init, last, t, m);
      PatternsSnoc(blocks, n - 1);
      assert blocks[..n] == blocks;
      AccumulateSnoc(init, last, []);
      assert [] + Patterns(init) == Patterns(init);
      assert Fill(blocks).1.suffixes == Patterns(init) + last.patterns;
    }
  }

  // ---------------------------------------------------------------------
  // Findings

  lemma FirstWithPatternAt(t: seq<MimeType>, pattern: string, k: nat)
    requires k < |t| && pattern in t[k].suffixes
    requires forall j | 0 <= j < k :: pattern !in t[j].suffixes
    ensures FirstWithPattern(t, pattern) == Some(k)
  {
  }

  lemma FirstWithMimeTypeAt(t: seq<MimeType>, name: string, k: nat)
    requires k < |t| && t[k].mimeType == name
    requires forall j | 0 <= j < k :: t[j].mimeType != name
    ensures FirstWithMimeType(t, name) == Some(k)
  {
  }

  /** A pattern no block lists is found in no entry. */
  lemma NotListedNotFound(rows: seq<Row>, pattern: string)
    requires forall k | 0 <= k < |rows| :: pattern !in rows[k].patterns
    ensures FirstWithPattern(Separate(rows), pattern) == None
  {
  }

  lemma PatternsOfThree(a: Row, b: Row, c: Row)
    ensures Patterns([a, b, c]) == a.patterns + b.patterns + c.patterns
  {
    assert [a, b, c][1..] == [b, c];
    assert [b, c][1..] == [c];
    assert [c][1..] == [];
    assert Patterns([c]) == c.patterns;
    assert Patterns([b, c]) == b.patterns + c.patterns;
  }

  /** As written, the brush preset entry lists the patterns of the two
      Gimp brush entries before its own. */
  lemma PresetSuffixesAsWritten(forName: string -> SystemMime)
    ensures SuffixesForMimeType([], "application/x-krita-paintoppreset", forName)
            == ["*.gbr,*vbr", "*.gih", "*.kpp"]
  {
    var t := AsWrittenTable();
    AccumulatedSuffixes(WrittenRows, [], 0);
    AccumulatedSuffixes(WrittenRows, [], 1);
    AccumulatedSuffixes(WrittenRows, [], 2);
    assert WrittenRows[..3] == [GimpBrush, GimpHose, BrushPreset];
    PatternsOfThree(GimpBrush, GimpHose, BrushPreset);
    FirstWithMimeTypeAt(t, "application/x-krita-paintoppreset", 2);
  }

  lemma GbrNotInBlock(k: nat)
    requires k < |WrittenRows|
    ensures "*.gbr" !in WrittenRows[k].patterns
  {
  }

  /** As written, "gbr" is not a table suffix: the first entry lists the
      single pattern "*.gbr,*vbr". */
  lemma GbrMissingAsWritten(forFile: string -> SystemMime)
    ensures MimeTypeForSuffix([], "gbr", forFile) == SystemAnswer(forFile("*.gbr").name)
  {
    forall k | 0 <= k < |WrittenRows| ensures "*.gbr" !in WrittenRows[k].patterns {
      GbrNotInBlock(k);
    }
    NotListedNotFound(WrittenRows, "*.gbr");
    SuffixLookupUnaffected(WrittenRows, [], "*.gbr");
    assert SuffixPattern("gbr") == "*.gbr";
  }

  /** In the intended table every entry lists exactly its own block's
      patterns, and the Gimp brush entry is found for both of its
      suffixes. */
  lemma IntendedBrushSuffixes(forFile: string -> SystemMime)
    ensures forall k | 0 <= k < |IntendedRows| :: IntendedTable()[k].suffixes == IntendedRows[k].patterns
    ensures MimeTypeForSuffix(IntendedTable(), "gbr", forFile) == "image/x-gimp-brush"
    ensures MimeTypeForSuffix(IntendedTable(), "vbr", forFile) == "image/x-gimp-brush"
  {
    var t := IntendedTable();
    assert t[0] == MimeType("image/x-gimp-brush", "Gimp Brush", ["*.gbr", "*.vbr"]);
    assert SuffixPattern("gbr") == "*.gbr";
    assert SuffixPattern("vbr") == "*.vbr";
    FirstWithPatternAt(t, "*.gbr", 0);
    FirstWithPatternAt(t, "*.vbr", 0);
  }

  /** In the intended table the brush preset entry lists only its own
      pattern. */
  lemma IntendedPresetSuffixes(forName: string -> SystemMime)
    ensures SuffixesForMimeType(IntendedTable(), "application/x-krita-paintoppreset", forName) == ["*.kpp"]
  {
    var t := IntendedTable();
    assert t[0].mimeType == "image/x-gimp-brush" && t[1].mimeType == "image/x-gimp-brush";
    assert t[2] == MimeType("application/x-krita-paintoppreset", "Krita Brush Preset", ["*.kpp"]);
    FirstWithMimeTypeAt(t, "application/x-krita-paintoppreset", 2);
  }

  /** The static table, filled on first use. */
  class KisMimeDatabase {
    var mimeDatabase: seq<MimeType>

    constructor()
      ensures mimeDatabase == []
    {
      mimeDatabase := [];
    }

    /** fillMimeData, block by block (each block's strings are the
        constant of the same name above), reusing one value. */
    method FillMimeData()
      modifies this
      ensures mimeDatabase == Filled(old(mimeDatabase))
    {
      if mimeDatabase != [] {
        return;
      }
      ghost var done: seq<Row> := [];
      var mimeType := MimeType("", "", []);
      var t: seq<MimeType> := [];

      FillStep(done, GimpBrush, t, mimeType);
      mimeType := mimeType.(mimeType := GimpBrush.mimeType, description := GimpBrush.description);
      mimeType := mimeType.(suffixes := mimeType.suffixes + GimpBrush.patterns);
      t := t + [mimeType];
      done := done + [GimpBrush];

      FillStep(done, GimpHose, t, mimeType);
      mimeType := mimeType.(mimeType := GimpHose.mimeType, description := GimpHose.description);
      mimeType := mimeType.(suffixes := mimeType.suffixes + GimpHose.patterns);
      t := t + [mimeType];
      done := done + [GimpHose];

      FillStep(done, BrushPreset, t, mimeType);
      mimeType := mimeType.(mimeType := BrushPreset.mimeType, description := BrushPreset.description);
      mimeType := mimeType.(suffixes := mimeType.suffixes + BrushPreset.patterns);
      t := t + [mimeType];
      done := done + [BrushPreset];

      FillStep(done, Assistant, t, mimeType);
      mimeType := mimeType.(mimeType := Assistant.mimeType, description := Assistant.description);
      mimeType := mimeType.(suffixes := mimeType.suffixes + Assistant.patterns);
      t := t + [mimeType];
      done := done + [Assistant];

      FillStep(done, R16, t, mimeType);
      mimeType := mimeType.(mimeType := R16.mimeType, description := R16.description);
      mimeType := mimeType.(suffixes := mimeType.suffixes + R16.patterns);
      t := t + [mimeType];
      done := done + [R16];

      FillStep(done, R8, t, mimeType);
      mimeType := mimeType.(mimeType := R8.mimeType, description := R8.description);
      mimeType := mimeType.(suffixes := mimeType.suffixes + R8.patterns);
      t := t + [mimeType];
      done := done + [R8];

      FillStep(done, Spriter, t, mimeType);
      mimeType := mimeType.(mimeType := Spriter.mimeType, description := Spriter.description);
      mimeType := mimeType.(suffixes := mimeType.suffixes + Spriter.patterns);
      t := t + [mimeType];
      done := done + [Spriter];

      FillStep(done, StarviewMetafile, t, mimeType);
      mimeType := mimeType.(mimeType := StarviewMetafile.mimeType, description := StarviewMetafile.description);
      mimeType := mimeType.(suffixes := mimeType.suffixes + StarviewMetafile.patterns);
      t := t + [mimeType];
      done := done + [StarviewMetafile];

      FillStep(done, OpenRaster, t, mimeType);
      mimeType := mimeType.(mimeType := OpenRaster.mimeType, description := OpenRaster.description);
      mimeType := mimeType.(suffixes := mimeType.suffixes + OpenRaster.patterns);
      t := t + [mimeType];
      done := done + [OpenRaster];

      FillStep(done, LayerStyles, t, mimeType);
      mimeType := mimeType.(mimeType := LayerStyles.mimeType, description := LayerStyles.description);
      mimeType := mimeType.(suffixes := mimeType.suffixes + LayerStyles.patterns);
      t := t + [mimeType];
      done := done + [LayerStyles];

      FillStep(done, GimpPalette, t, mimeType);
      mimeType := mimeType.(mimeType := GimpPalette.mimeType, description := GimpPalette.description);
      mimeType := mimeType.(suffixes := mimeType.suffixes + GimpPalette.patterns);
      t := t + [mimeType];
      done := done + [GimpPalette];

      FillStep(done, OpenColorIO, t, mimeType);
      mimeType := mimeType.(mimeType := OpenColorIO.mimeType, description := OpenColorIO.description);
      mimeType := mimeType.(suffixes := mimeType.suffixes + OpenColorIO.patterns);
      t := t + [mimeType];
      done := done + [OpenColorIO];

      FillStep(done, RecordedMacro, t, mimeType);
      mimeType := mimeType.(mimeType := RecordedMacro.mimeType, description := RecordedMacro.description);
      mimeType := mimeType.(suffixes := mimeType.suffixes + RecordedMacro.patterns);
      t := t + [mimeType];
      done := done + [RecordedMacro];

      assert done == WrittenRows;
      FillAccumulates(done);
      mimeDatabase := t;
    }
  }
}
