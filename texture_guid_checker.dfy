// The text processing of the editor tool that repairs texture references in
// material files (Assets/Editor/MissingTextureGUIDChecker.cs): the filter that
// picks texture `.meta` files, the first-match guid extraction from a `.meta`
// file, the guid -> asset path map, and the line scanner that pulls texture
// guids out of a material file. Directory listings and file contents are
// inputs; the AssetDatabase and Material calls are not part of this model.

module TextureGuidChecker {
  import opened Options
  import opened Text

  // ---------------------------------------------------------------------------
  // Material parsing
  // ---------------------------------------------------------------------------

  /** The texture property names the parser looks for, in the order of the
      source's pattern table. */
  const PropertyNames: seq<string> := [
    "_MainTex", "_BaseMap", "_BumpMap", "_MetallicGlossMap", "_OcclusionMap",
    "_EmissionMap", "_DetailAlbedoMap", "_DetailNormalMap", "_ParallaxMap",
    "_SpecGlossMap", "_DetailMask"
  ]

  /** Line i's look-ahead stops before line i + LookAheadSpan. */
  const LookAheadSpan: nat := 10

  const GuidPrefix: string := "guid: "

  /** A trimmed line that carries a guid. */
  predicate IsGuidLine(t: string) {
    StartsWith(t, GuidPrefix)
  }

  /** The guid of a guid line: the trimmed text after the prefix. */
  function GuidValue(t: string): string
    requires IsGuidLine(t)
  {
    Trim(t[|GuidPrefix|..])
  }

  /** A trimmed line that ends the look-ahead: another property or section.
      (Contains(":") is membership of ':'; see Text.ContainsChar.) */
  predicate IsStopLine(t: string) {
    ':' in t && !StartsWith(t, "m_") && !StartsWith(t, "fileID") && !StartsWith(t, "guid")
  }

  /** A trimmed line the look-ahead walks past. */
  predicate Passable(t: string) {
    !IsGuidLine(t) && !IsStopLine(t)
  }

  /** The end (exclusive) of line i's look-ahead window in n lines:
      Mathf.Min(i + 10, n). */
  function WindowEnd(i: nat, n: nat): nat {
    if i + LookAheadSpan < n then i + LookAheadSpan else n
  }

  datatype Scan = GuidAt(guid: string) | NoGuid

  /** The inner look-ahead loop from line j up to `end`: the first guid line
      gives its guid, a stop line or the end of the window gives nothing. */
  function ScanAhead(lines: seq<string>, j: nat, end: nat): Scan
    requires j <= end <= |lines|
    decreases end - j
  {
    if j == end then NoGuid
    else
      var t := Trim(lines[j]);
      if IsGuidLine(t) then GuidAt(GuidValue(t))
      else if IsStopLine(t) then NoGuid
      else ScanAhead(lines, j + 1, end)
  }

  /** Line k is the first guid line from line j on, and every line between
      is passable. */
  predicate FirstGuidLine(lines: seq<string>, j: nat, k: nat)
    requires k < |lines|
  {
    j <= k && IsGuidLine(Trim(lines[k]))
    && forall m :: j <= m < k ==> Passable(Trim(lines[m]))
  }

  /** Some line of j .. end-1 is the first guid line from j on, and its
      value is g. */
  predicate GuidFoundIn(lines: seq<string>, j: nat, end: nat, g: string)
    requires end <= |lines|
  {
    exists k :: j <= k < end && FirstGuidLine(lines, j, k) && GuidValue(Trim(lines[k])) == g
  }

  /** The look-ahead finds guid g exactly when some line of the window is the
      first guid line with only passable lines before it, and g is its value. */
  lemma {:induction false} ScanAheadFinds(lines: seq<string>, j: nat, end: nat, g: string)
    requires j <= end <= |lines|
    ensures ScanAhead(lines, j, end) == GuidAt(g) <==> GuidFoundIn(lines, j, end, g)
    decreases end - j
  {
    if j < end {
      var t := Trim(lines[j]);
      if IsGuidLine(t) {
        GuidFoundAtGuidLine(lines, j, end, g);
      } else if IsStopLine(t) {
        assert forall k :: j <= k < end ==> !FirstGuidLine(lines, j, k);
      } else {
        ScanAheadFinds(lines, j + 1, end, g);
        GuidFoundPastPassable(lines, j, end, g);
      }
    }
  }

  /** From a guid line, the only first guid line is that line itself. */
  lemma GuidFoundAtGuidLine(lines: seq<string>, j: nat, end: nat, g: string)
    requires j < end <= |lines| && IsGuidLine(Trim(lines[j]))
    ensures GuidFoundIn(lines, j, end, g) <==> GuidValue(Trim(lines[j])) == g
  {
    assert FirstGuidLine(lines, j, j);
    assert forall k :: j <= k < end && FirstGuidLine(lines, j, k) ==> k == j;
  }

  /** A passable line does not change where the first guid line is. */
  lemma GuidFoundPastPassable(lines: seq<string>, j: nat, end: nat, g: string)
    requires j < end <= |lines| && Passable(Trim(lines[j]))
    ensures GuidFoundIn(lines, j, end, g) <==> GuidFoundIn(lines, j + 1, end, g)
  {
    if GuidFoundIn(lines, j + 1, end, g) {
      var k :| j + 1 <= k < end && FirstGuidLine(lines, j + 1, k) && GuidValue(Trim(lines[k])) == g;
      assert FirstGuidLine(lines, j, k);
    }
    if GuidFoundIn(lines, j, end, g) {
      var k :| j <= k < end && FirstGuidLine(lines, j, k) && GuidValue(Trim(lines[k])) == g;
      assert k != j;
      assert FirstGuidLine(lines, j + 1, k);
    }
  }

  /** A trimmed guid line always has a non-empty guid: trimming removed the
      blank after "guid:", so some non-blank character follows the prefix. */
  lemma TrimmedGuidLineHasValue(line: string)
    requires IsGuidLine(Trim(line))
    ensures GuidValue(Trim(line)) != ""
  {
    var t := Trim(line);
    assert t[|t| - 1] != ' ';
    assert t[|GuidPrefix| - 1] == ' ';
    var rest := t[|GuidPrefix|..];
    assert rest[|rest| - 1] == t[|t| - 1];
    TrimKeepsNonBlankEnd(rest);
  }

  /** What line i records for property p: the guid the look-ahead finds when
      the trimmed line mentions "p:" and the guid is non-empty. */
  function PropertyHit(lines: seq<string>, i: nat, p: string): Option<string>
    requires i < |lines|
  {
    if Contains(Trim(lines[i]), p + ":") then
      match ScanAhead(lines, i + 1, WindowEnd(i, |lines|))
      case GuidAt(g) => if g != "" then Some(g) else None
      case NoGuid => None
    else None
  }

  /** A hit for property p on line i is the value of the first guid line of
      the window i+1 .. min(i+10, n)-1, which has at most nine lines, with
      only passable lines before it. */
  lemma PropertyHitWindow(lines: seq<string>, i: nat, p: string, g: string)
    requires i < |lines|
    ensures PropertyHit(lines, i, p) == Some(g) <==>
            && Contains(Trim(lines[i]), p + ":")
            && g != ""
            && GuidFoundIn(lines, i + 1, WindowEnd(i, |lines|), g)
    ensures WindowEnd(i, |lines|) - (i + 1) <= 9
  {
    ScanAheadFinds(lines, i + 1, WindowEnd(i, |lines|), g);
  }

  /** The table after the inner loop over the first k property names on line
      i, starting from table m. */
  function ApplyProperties(lines: seq<string>, i: nat, k: nat, m: map<string, string>): map<string, string>
    requires i < |lines| && k <= |PropertyNames|
  {
    if k == 0 then m
    else
      var before := ApplyProperties(lines, i, k - 1, m);
      match PropertyHit(lines, i, PropertyNames[k - 1])
      case Some(g) => before[PropertyNames[k - 1] := g]
      case None => before
  }

  /** The table after the outer loop over the first n lines. */
  function ParseLines(lines: seq<string>, n: nat): map<string, string>
    requires n <= |lines|
  {
    if n == 0 then map[] else ApplyProperties(lines, n - 1, |PropertyNames|, ParseLines(lines, n - 1))
  }

  /** The lines of a material file: its text split at '\n'. */
  function MaterialLines(materialContent: string): seq<string> {
    Split(materialContent, '\n')
  }

  /** The property -> guid table parsed from a material file. */
  function ParsedProperties(materialContent: string): map<string, string> {
    var lines := MaterialLines(materialContent);
    ParseLines(lines, |lines|)
  }

  /** Reference definition of the parser's result for one property: the hit
      of the last line (among the first n) that has one. */
  function LastHit(lines: seq<string>, n: nat, p: string): Option<string>
    requires n <= |lines|
  {
    if n == 0 then None
    else match PropertyHit(lines, n - 1, p)
      case Some(g) => Some(g)
      case None => LastHit(lines, n - 1, p)
  }

  lemma PropertyNamesDistinct()
    ensures forall a, b :: 0 <= a < b < |PropertyNames| ==> PropertyNames[a] != PropertyNames[b]
  {
  }

  /** One pass of the inner loop touches only the property names scanned so
      far, and each of those takes the line's hit if it has one. */
  lemma {:induction false} ApplyPropertiesAt(lines: seq<string>, i: nat, k: nat, m: map<string, string>, p: string)
    requires i < |lines| && k <= |PropertyNames|
    ensures var r := ApplyProperties(lines, i, k, m);
            if p in PropertyNames[..k] && PropertyHit(lines, i, p).Some? then
              p in r && r[p] == PropertyHit(lines, i, p).value
            else
              (p in r <==> p in m) && (p in m ==> r[p] == m[p])
  {
    if k > 0 {
      ApplyPropertiesAt(lines, i, k - 1, m, p);
      PropertyNamesDistinct();
      assert PropertyNames[..k] == PropertyNames[..k - 1] + [PropertyNames[k - 1]];
    }
  }

  /** The parsed table holds exactly the listed property names that some line
      hits, each with the guid of the LAST line that hits it. */
  lemma {:induction false} ParseLinesIsLastHit(lines: seq<string>, n: nat, p: string)
    requires n <= |lines|
    ensures p in ParseLines(lines, n) <==> p in PropertyNames && LastHit(lines, n, p).Some?
    ensures p in ParseLines(lines, n) ==> ParseLines(lines, n)[p] == LastHit(lines, n, p).value
  {
    if n > 0 {
      ParseLinesIsLastHit(lines, n - 1, p);
      ApplyPropertiesAt(lines, n - 1, |PropertyNames|, ParseLines(lines, n - 1), p);
      assert PropertyNames[..|PropertyNames|] == PropertyNames;
    }
  }

  /** Every key of a parsed table is one of the eleven property names and
      every value is a non-empty guid. */
  lemma ParsedTableShape(materialContent: string, p: string)
    ensures p in ParsedProperties(materialContent) ==>
              p in PropertyNames && ParsedProperties(materialContent)[p] != ""
  {
    var lines := MaterialLines(materialContent);
    ParseLinesIsLastHit(lines, |lines|, p);
    LastHitIsHit(lines, |lines|, p);
  }

  /** The last hit is a hit of some line, hence a non-empty guid. */
  lemma {:induction false} LastHitIsHit(lines: seq<string>, n: nat, p: string)
    requires n <= |lines|
    ensures LastHit(lines, n, p).Some? ==>
              exists i :: 0 <= i < n && PropertyHit(lines, i, p) == LastHit(lines, n, p)
    ensures LastHit(lines, n, p).Some? ==> LastHit(lines, n, p).value != ""
  {
    if n > 0 && PropertyHit(lines, n - 1, p).None? {
      LastHitIsHit(lines, n - 1, p);
    }
  }

  /** The innermost loop: look ahead from line i + 1 for a guid line, up to
      min(i + 10, n), stopping at a stop line. */
  method LookAhead(lines: seq<string>, i: nat) returns (found: Scan)
    requires i < |lines|
    ensures found == ScanAhead(lines, i + 1, WindowEnd(i, |lines|))
  {
    var end := WindowEnd(i, |lines|);
    found := NoGuid;
    var j := i + 1;
    while j < end
      invariant i + 1 <= j <= end
      invariant ScanAhead(lines, i + 1, end) == ScanAhead(lines, j, end)
    {
      var nextLine := Trim(lines[j]);
      if IsGuidLine(nextLine) {
        found := GuidAt(GuidValue(nextLine));
        break;
      }
      if IsStopLine(nextLine) {
        break;
      }
      j := j + 1;
    }
  }

  /** The source's nested loops, run over the lines of the material text. */
  method ParseTextureProperties(materialContent: string) returns (textureProperties: map<string, string>)
    ensures textureProperties == ParsedProperties(materialContent)
    ensures forall p :: p in textureProperties ==> p in PropertyNames && textureProperties[p] != ""
  {
    var lines := MaterialLines(materialContent);
    textureProperties := map[];
    var i := 0;
    while i < |lines|
      invariant 0 <= i <= |lines|
      invariant textureProperties == ParseLines(lines, i)
    {
      var line := Trim(lines[i]);
      ghost var atLineStart := textureProperties;
      var k := 0;
      while k < |PropertyNames|
        invariant 0 <= k <= |PropertyNames|
        invariant textureProperties == ApplyProperties(lines, i, k, atLineStart)
      {
        var propertyName := PropertyNames[k];
        if Contains(line, propertyName + ":") {
          var found := LookAhead(lines, i);
          if found.GuidAt? && found.guid != "" {
            textureProperties := textureProperties[propertyName := found.guid];
          }
        }
        k := k + 1;
      }
      i := i + 1;
    }
    forall p | p in textureProperties
      ensures p in PropertyNames && textureProperties[p] != ""
    {
      ParsedTableShape(materialContent, p);
    }
  }

  // ---------------------------------------------------------------------------
  // Texture .meta files and the guid -> path map
  // ---------------------------------------------------------------------------

  /** The LINQ filter: a texture's `.meta` file, by its extension. */
  predicate IsTextureMetaPath(path: string) {
    || EndsWith(path, ".png.meta") || EndsWith(path, ".jpg.meta")
    || EndsWith(path, ".jpeg.meta") || EndsWith(path, ".tga.meta")
    || EndsWith(path, ".psd.meta") || EndsWith(path, ".exr.meta")
    || EndsWith(path, ".hdr.meta") || EndsWith(path, ".tiff.meta")
  }

  /** Every texture meta path ends in ".meta". */
  lemma TextureMetaPathIsMeta(path: string)
    requires IsTextureMetaPath(path)
    ensures EndsWith(path, ".meta")
  {
    var n := |path|;
    if EndsWith(path, ".jpeg.meta") || EndsWith(path, ".tiff.meta") {
      assert path[n - 5..] == path[n - 10..][5..];
    } else {
      assert path[n - 5..] == path[n - 9..][4..];
    }
  }

  /** `Where(IsTextureMetaPath)`: the texture meta paths, in listing order. */
  function TextureMetaPaths(paths: seq<string>): (r: seq<string>)
    ensures |r| <= |paths|
    ensures forall p :: p in r <==> p in paths && IsTextureMetaPath(p)
  {
    if paths == [] then []
    else (if IsTextureMetaPath(paths[0]) then [paths[0]] else []) + TextureMetaPaths(paths[1..])
  }

  /** The filter keeps listing order: filtering a listing is filtering
      each part of it in turn, and a single path is kept on its own exactly
      when it is a texture meta path. */
  lemma {:induction false} TextureMetaPathsKeepsOrder(a: seq<string>, b: seq<string>)
    ensures TextureMetaPaths(a + b) == TextureMetaPaths(a) + TextureMetaPaths(b)
    ensures forall p :: TextureMetaPaths([p]) == if IsTextureMetaPath(p) then [p] else []
    decreases |a|
  {
    if a != [] {
      assert (a + b)[1..] == a[1..] + b;
      TextureMetaPathsKeepsOrder(a[1..], b);
    } else {
      assert a + b == b;
    }
    forall p ensures TextureMetaPaths([p]) == if IsTextureMetaPath(p) then [p] else [] {
      assert [p][1..] == [];
    }
  }

  /** ExtractGuidFromMetaFile over the lines read from the file (a read that
      fails part way delivers the lines read before it): the trimmed remainder
      of the first line that starts with "guid: ", untrimmed, or None. */
  function ExtractGuidFromMetaFile(lines: seq<string>): Option<string> {
    if lines == [] then None
    else if StartsWith(lines[0], GuidPrefix) then Some(Trim(lines[0][|GuidPrefix|..]))
    else ExtractGuidFromMetaFile(lines[1..])
  }

  /** The extracted guid is that of the first line starting with "guid: ",
      and there is none exactly when no line starts with it. */
  lemma {:induction false} ExtractGuidFirstMatch(lines: seq<string>)
    ensures ExtractGuidFromMetaFile(lines).None? <==>
            forall i :: 0 <= i < |lines| ==> !StartsWith(lines[i], GuidPrefix)
    ensures ExtractGuidFromMetaFile(lines).Some? ==>
            exists i :: 0 <= i < |lines| && StartsWith(lines[i], GuidPrefix)
                        && (forall k :: 0 <= k < i ==> !StartsWith(lines[k], GuidPrefix))
                        && ExtractGuidFromMetaFile(lines).value == Trim(lines[i][|GuidPrefix|..])
  {
    if lines != [] {
      ExtractGuidFirstMatch(lines[1..]);
      if StartsWith(lines[0], GuidPrefix) {
        assert 0 < |lines| && StartsWith(lines[0], GuidPrefix);
      } else {
        if ExtractGuidFromMetaFile(lines).Some? {
          var i :| 0 <= i < |lines[1..]| && StartsWith(lines[1..][i], GuidPrefix)
                   && (forall k :: 0 <= k < i ==> !StartsWith(lines[1..][k], GuidPrefix))
                   && ExtractGuidFromMetaFile(lines[1..]).value == Trim(lines[1..][i][|GuidPrefix|..]);
          assert StartsWith(lines[i + 1], GuidPrefix);
          assert forall k :: 0 <= k < i + 1 ==> !StartsWith(lines[k], GuidPrefix) by {
            forall k | 0 < k < i + 1 ensures !StartsWith(lines[k], GuidPrefix) {
              assert lines[k] == lines[1..][k - 1];
            }
          }
        } else {
          forall i | 0 < i < |lines| ensures !StartsWith(lines[i], GuidPrefix) {
            assert lines[i] == lines[1..][i - 1];
          }
        }
      }
    }
  }

  /** The lines of a file, as far as they could be read; a path that cannot be
      read at all delivers none. */
  function LinesOf(files: map<string, seq<string>>, path: string): seq<string> {
    if path in files then files[path] else []
  }

  /** The asset path of a texture, from its meta path: the ".meta" suffix
      removed and the project's data path replaced by "Assets". The source
      removes every ".meta" in the path instead; see AssetPathAsWritten. */
  function AssetPath(metaPath: string, dataPath: string): string
    requires EndsWith(metaPath, ".meta") && dataPath != ""
  {
    ReplaceAll(metaPath[..|metaPath| - 5], dataPath, "Assets")
  }

  /** The asset path as the source computes it:
      metaPath.Replace(".meta", "").Replace(dataPath, "Assets"). */
  function AssetPathAsWritten(metaPath: string, dataPath: string): string
    requires dataPath != ""
  {
    ReplaceAll(ReplaceAll(metaPath, ".meta", ""), dataPath, "Assets")
  }

  /** For a texture path that does not contain the data path, the asset path
      of its meta file is the texture path itself. */
  lemma AssetPathOfMeta(texturePath: string, dataPath: string)
    requires dataPath != "" && !Contains(texturePath, dataPath)
    ensures EndsWith(texturePath + ".meta", ".meta")
    ensures AssetPath(texturePath + ".meta", dataPath) == texturePath
  {
    var metaPath := texturePath + ".meta";
    assert metaPath[..|metaPath| - 5] == texturePath;
    ReplaceAllAbsent(texturePath, dataPath, "");
    ReplaceAllAbsent(texturePath, dataPath, "Assets");
  }

  /** A texture whose name holds ".meta" before its extension, such as
      "Assets/x.meta.png", is mapped by the source to "Assets/x.png", a
      different file. (Removing only the suffix keeps the texture's own path:
      AssetPathOfMeta.) */
  lemma AssetPathAsWrittenDropsInnerMeta(stem: string, ext: string, dataPath: string)
    requires '.' !in stem && '.' !in ext && ext != [] && ext[0] != 'm'
    requires |dataPath| > |stem| + |ext| + 11
    ensures AssetPathAsWritten(stem + ".meta." + ext + ".meta", dataPath) == stem + "." + ext
  {
    var stripped := stem + "." + ext;
    RemoveEveryOccurrence(stem, ext, ".meta");
    assert stem + ".meta." + ext + ".meta" == stem + ".meta" + "." + ext + ".meta";
    // The data path is longer than the stripped path, so it does not occur.
    ContainsOccurrence(stripped, dataPath);
    ReplaceAllAbsent(stripped, dataPath, "Assets");
  }

  /** Removing a dot-led pattern from "stem<pattern>.ext<pattern>" removes
      both occurrences when neither the stem nor the extension holds a dot
      and the extension does not continue the pattern's dot. */
  lemma RemoveEveryOccurrence(stem: string, ext: string, pattern: string)
    requires |pattern| >= 2 && pattern[0] == '.'
    requires '.' !in stem && '.' !in ext && ext != [] && ext[0] != pattern[1]
    ensures ReplaceAll(stem + pattern + "." + ext + pattern, pattern, "") == stem + "." + ext
  {
    var rest := ['.'] + (ext + pattern);
    assert forall k :: 0 <= k < |stem| ==> stem[k] != pattern[0];
    calc {
      ReplaceAll(stem + pattern + "." + ext + pattern, pattern, "");
      { assert stem + pattern + "." + ext + pattern == stem + (pattern + rest); }
      ReplaceAll(stem + (pattern + rest), pattern, "");
      // The stem is copied, ...
      { ReplaceAllCopiesPrefix(stem, pattern + rest, pattern, ""); }
      stem + ReplaceAll(pattern + rest, pattern, "");
      // ... the first occurrence dropped, ...
      { ReplaceAllLeading(pattern, "", rest); }
      stem + ("" + ReplaceAll(rest, pattern, ""));
      // ... and the rest loses its trailing occurrence.
      { RemoveTrailingOccurrence(ext, pattern); }
      stem + ("" + (['.'] + ext));
      { assert "" + (['.'] + ext) == "." + ext; }
      stem + "." + ext;
    }
  }

  /** Removing the pattern from ".ext<pattern>" leaves ".ext". */
  lemma RemoveTrailingOccurrence(ext: string, pattern: string)
    requires |pattern| >= 2 && pattern[0] == '.'
    requires '.' !in ext && ext != [] && ext[0] != pattern[1]
    ensures ReplaceAll(['.'] + (ext + pattern), pattern, "") == ['.'] + ext
  {
    assert (['.'] + (ext + pattern))[1] == ext[0];
    ReplaceAllCopies('.', ext + pattern, pattern, "");
    assert forall k :: 0 <= k < |ext| ==> ext[k] != pattern[0];
    ReplaceAllCopiesPrefix(ext, pattern, pattern, "");
    ReplaceAllLeading(pattern, "", "");
    assert pattern + "" == pattern && ext + "" == ext;
  }

  /** How a meta path becomes an asset path: as the source writes it
      (every ".meta" removed) or with only the ".meta" suffix removed. */
  datatype PathRule = AsWritten | SuffixOnly

  function PathOf(rule: PathRule, metaPath: string, dataPath: string): string
    requires EndsWith(metaPath, ".meta") && dataPath != ""
  {
    match rule
    case AsWritten => AssetPathAsWritten(metaPath, dataPath)
    case SuffixOnly => AssetPath(metaPath, dataPath)
  }

  /** What one texture meta file contributes to the map: its guid and asset
      path, when the guid is non-empty and the path starts with "Assets". */
  function MetaEntry(rule: PathRule, metaPath: string, files: map<string, seq<string>>, dataPath: string): Option<(string, string)>
    requires IsTextureMetaPath(metaPath) && dataPath != ""
  {
    TextureMetaPathIsMeta(metaPath);
    match ExtractGuidFromMetaFile(LinesOf(files, metaPath))
    case Some(guid) =>
      var assetPath := PathOf(rule, metaPath, dataPath);
      if guid != "" && StartsWith(assetPath, "Assets") then Some((guid, assetPath)) else None
    case None => None
  }

  predicate AllTextureMeta(metaPaths: seq<string>) {
    forall p :: p in metaPaths ==> IsTextureMetaPath(p)
  }

  /** The map after the loop over the first n meta paths: later entries
      overwrite earlier ones. */
  function GuidMapOf(rule: PathRule, metaPaths: seq<string>, n: nat, files: map<string, seq<string>>, dataPath: string): map<string, string>
    requires n <= |metaPaths| && AllTextureMeta(metaPaths) && dataPath != ""
  {
    if n == 0 then map[]
    else
      var m := GuidMapOf(rule, metaPaths, n - 1, files, dataPath);
      match MetaEntry(rule, metaPaths[n - 1], files, dataPath)
      case Some(entry) => m[entry.0 := entry.1]
      case None => m
  }

  /** Reference definition: the asset path of the last of the first n meta
      files whose entry carries guid g. */
  function LastPathFor(rule: PathRule, metaPaths: seq<string>, n: nat, files: map<string, seq<string>>, dataPath: string, g: string): Option<string>
    requires n <= |metaPaths| && AllTextureMeta(metaPaths) && dataPath != ""
  {
    if n == 0 then None
    else match MetaEntry(rule, metaPaths[n - 1], files, dataPath)
      case Some(entry) =>
        if entry.0 == g then Some(entry.1) else LastPathFor(rule, metaPaths, n - 1, files, dataPath, g)
      case None => LastPathFor(rule, metaPaths, n - 1, files, dataPath, g)
  }

  /** The map sends g to the path of the last meta file with guid g, has no
      other keys, and every stored path starts with "Assets" under a
      non-empty guid. This holds under either path rule. */
  lemma {:induction false} GuidMapIsLastWriter(rule: PathRule, metaPaths: seq<string>, n: nat, files: map<string, seq<string>>, dataPath: string, g: string)
    requires n <= |metaPaths| && AllTextureMeta(metaPaths) && dataPath != ""
    ensures g in GuidMapOf(rule, metaPaths, n, files, dataPath) <==> LastPathFor(rule, metaPaths, n, files, dataPath, g).Some?
    ensures g in GuidMapOf(rule, metaPaths, n, files, dataPath) ==>
              && GuidMapOf(rule, metaPaths, n, files, dataPath)[g] == LastPathFor(rule, metaPaths, n, files, dataPath, g).value
              && g != ""
              && StartsWith(GuidMapOf(rule, metaPaths, n, files, dataPath)[g], "Assets")
  {
    if n > 0 {
      GuidMapIsLastWriter(rule, metaPaths, n - 1, files, dataPath, g);
    }
  }

  /** Part 1 of FindAndFixMissingTextureGUIDs: the guid -> asset path map of
      every texture meta file among `allPaths` (the recursive listing of
      "Assets"), with `files` giving the readable lines of each file. With
      `rule` AsWritten this is the source's map; SuffixOnly gives the map
      the source evidently intends. */
  method BuildGuidToPath(rule: PathRule, allPaths: seq<string>, files: map<string, seq<string>>, dataPath: string)
    returns (guidToPath: map<string, string>)
    requires dataPath != ""
    ensures AllTextureMeta(TextureMetaPaths(allPaths))
    ensures guidToPath == GuidMapOf(rule, TextureMetaPaths(allPaths), |TextureMetaPaths(allPaths)|, files, dataPath)
    ensures forall g :: g in guidToPath ==> g != "" && StartsWith(guidToPath[g], "Assets")
  {
    var textureMetaPaths := TextureMetaPaths(allPaths);
    guidToPath := map[];
    var i := 0;
    while i < |textureMetaPaths|
      invariant 0 <= i <= |textureMetaPaths|
      invariant guidToPath == GuidMapOf(rule, textureMetaPaths, i, files, dataPath)
    {
      var metaPath := textureMetaPaths[i];
      var guid := ExtractGuidFromMetaFile(LinesOf(files, metaPath));
      if guid.Some? && guid.value != "" {
        TextureMetaPathIsMeta(metaPath);
        var assetPath := PathOf(rule, metaPath, dataPath);
        if StartsWith(assetPath, "Assets") {
          guidToPath := guidToPath[guid.value := assetPath];
        }
      }
      i := i + 1;
    }
    forall g | g in guidToPath
      ensures g != "" && StartsWith(guidToPath[g], "Assets")
    {
      GuidMapIsLastWriter(rule, textureMetaPaths, |textureMetaPaths|, files, dataPath, g);
    }
  }
}
