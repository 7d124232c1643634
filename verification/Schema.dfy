/** Comparing the JSON schema of a failing request with that of a successful one. */
module Schema {
  import opened Prelude
  import opened Text

  /** A path of the document with its JSON type, and for roles and types the permitted value. */
  datatype Field = Field(path: string, valueType: string, safeEnum: Option<string>)

  type Fields = map<string, Field>

  datatype Difference = Difference(path: string, successfulType: string, failingType: string, lossless: bool)

  /** Later fields replace earlier ones with the same path. */
  function ByPath(fields: seq<Field>): Fields {
    if fields == [] then map[]
    else ByPath(fields[..|fields| - 1])[fields[|fields| - 1].path := fields[|fields| - 1]]
  }

  function Lookup(fields: Fields, path: string): Option<Field> {
    if path in fields then Some(fields[path]) else None
  }

  // ---- Paths in order ----

  /** Lexicographic order by character. */
  predicate Less(a: string, b: string) {
    b != "" && (a == "" || a[0] < b[0] || (a[0] == b[0] && Less(a[1..], b[1..])))
  }

  lemma {:induction false} LessTotal(a: string, b: string)
    ensures Less(a, b) || a == b || Less(b, a)
  {
    if a != "" && b != "" && a[0] == b[0] {
      LessTotal(a[1..], b[1..]);
      assert a == [a[0]] + a[1..] && b == [b[0]] + b[1..];
    }
  }

  lemma {:induction false} LessTransitive(a: string, b: string, c: string)
    requires Less(a, b) && Less(b, c)
    ensures Less(a, c)
  {
    if a != "" && a[0] == b[0] == c[0] {
      LessTransitive(a[1..], b[1..], c[1..]);
    }
  }

  lemma {:induction false} LessIrreflexive(a: string)
    ensures !Less(a, a)
  {
    if a != "" {
      LessIrreflexive(a[1..]);
    }
  }

  ghost predicate Sorted(paths: seq<string>) {
    forall i, j :: 0 <= i < j < |paths| ==> Less(paths[i], paths[j])
  }

  function Insert(paths: seq<string>, path: string): seq<string> {
    if paths == [] then [path]
    else
      var n := |paths| - 1;
      if Less(paths[n], path) then paths + [path]
      else if paths[n] == path then paths
      else Insert(paths[..n], path) + [paths[n]]
  }

  lemma {:induction false} InsertSorts(paths: seq<string>, path: string)
    requires Sorted(paths)
    ensures Sorted(Insert(paths, path))
    ensures forall p :: p in Insert(paths, path) <==> p in paths || p == path
  {
    if paths != [] {
      var n := |paths| - 1;
      var last := paths[n];
      assert paths == paths[..n] + [last];
      if Less(last, path) {
        forall i | 0 <= i < n ensures Less(paths[i], path) {
          LessTransitive(paths[i], last, path);
        }
      } else if last != path {
        LessTotal(last, path);
        InsertSorts(paths[..n], path);
        var front := Insert(paths[..n], path);
        forall i | 0 <= i < |front| ensures Less(front[i], last) {
          assert front[i] in front;
          if front[i] != path {
            assert front[i] in paths[..n];
          }
        }
      }
    }
  }

  function InsertAll(paths: seq<string>, fields: seq<Field>): seq<string> {
    if fields == [] then paths
    else Insert(InsertAll(paths, fields[..|fields| - 1]), fields[|fields| - 1].path)
  }

  lemma {:induction false} InsertAllSorts(paths: seq<string>, fields: seq<Field>)
    requires Sorted(paths)
    ensures Sorted(InsertAll(paths, fields))
    ensures forall p :: p in InsertAll(paths, fields) <==> p in paths || p in ByPath(fields)
  {
    if fields != [] {
      InsertAllSorts(paths, fields[..|fields| - 1]);
      InsertSorts(InsertAll(paths, fields[..|fields| - 1]), fields[|fields| - 1].path);
    }
  }

  function AllPaths(success: seq<Field>, failure: seq<Field>): seq<string> {
    InsertAll(InsertAll([], success), failure)
  }

  lemma AllPathsSorted(success: seq<Field>, failure: seq<Field>)
    ensures Sorted(AllPaths(success, failure))
    ensures forall p :: p in AllPaths(success, failure) <==> p in ByPath(success) || p in ByPath(failure)
  {
    InsertAllSorts([], success);
    InsertAllSorts(InsertAll([], success), failure);
  }

  // ---- Classification ----

  predicate IsTextEnum(safeEnum: Option<string>) {
    safeEnum == Some("input_text") || safeEnum == Some("output_text")
  }

  predicate KnownTypeChange(path: string, good: string, bad: string) {
    || ((EndsWith(path, ".replacement_history") || EndsWith(path, ".content")) && good == "array" && bad == "string")
    || (EndsWith(path, ".arguments") && good == "string" && (bad == "object" || bad == "array"))
    || (Mentions(path, ".content[") && good == "object" && bad == "string")
    || (EndsWith(path, ".output") && (good == "string" || good == "array") && (bad == "object" || bad == "array"))
  }

  predicate KnownEnumChange(path: string, good: Field, bad: Field) {
    EndsWith(path, ".type") && good.valueType == "string" && bad.valueType == "string"
    && IsTextEnum(good.safeEnum) && IsTextEnum(bad.safeEnum)
  }

  predicate IsLossless(path: string, good: Option<Field>, bad: Option<Field>) {
    good.Some? && bad.Some?
    && (KnownTypeChange(path, good.value.valueType, bad.value.valueType) || KnownEnumChange(path, good.value, bad.value))
  }

  predicate IsDescendant(path: string, root: string) {
    root <= path && |root| < |path| && (path[|root|] == '.' || path[|root|] == '[')
  }

  predicate IsArray(fields: Fields, path: string) {
    path in fields && fields[path].valueType == "array"
  }

  /** The part of the path before its first bracket is an array on both sides. */
  predicate IsArrayVariation(path: string, success: Fields, failure: Fields) {
    match FindWhere(path, c => c == '[')
    case None => false
    case Some(i) => IsArray(success, path[..i]) && IsArray(failure, path[..i])
  }

  predicate Same(good: Option<Field>, bad: Option<Field>) {
    good.Some? && bad.Some? && good.value.valueType == bad.value.valueType && good.value.safeEnum == bad.value.safeEnum
  }

  function FieldSignature(field: Option<Field>): string {
    match field
    case None => "missing"
    case Some(f) => if f.safeEnum.Some? then f.valueType + ":" + f.safeEnum.value else f.valueType
  }

  // ---- Differences ----

  function Roots(paths: seq<string>, success: Fields, failure: Fields): seq<string> {
    if paths == [] then []
    else
      var n := |paths| - 1;
      Roots(paths[..n], success, failure)
      + if IsLossless(paths[n], Lookup(success, paths[n]), Lookup(failure, paths[n])) then [paths[n]] else []
  }

  predicate UnderRoot(path: string, roots: seq<string>) {
    exists i :: 0 <= i < |roots| && path != roots[i] && IsDescendant(path, roots[i])
  }

  predicate Skipped(path: string, roots: seq<string>, success: Fields, failure: Fields) {
    var good, bad := Lookup(success, path), Lookup(failure, path);
    Same(good, bad) || UnderRoot(path, roots) || ((good.None? || bad.None?) && IsArrayVariation(path, success, failure))
  }

  function DifferenceAt(path: string, success: Fields, failure: Fields): Difference {
    var good, bad := Lookup(success, path), Lookup(failure, path);
    Difference(path, FieldSignature(good), FieldSignature(bad), IsLossless(path, good, bad))
  }

  function Report(paths: seq<string>, roots: seq<string>, success: Fields, failure: Fields): seq<Difference> {
    if paths == [] then []
    else
      var n := |paths| - 1;
      Report(paths[..n], roots, success, failure)
      + if Skipped(paths[n], roots, success, failure) then [] else [DifferenceAt(paths[n], success, failure)]
  }

  function Differences(success: seq<Field>, failure: seq<Field>): seq<Difference> {
    var good, bad, paths := ByPath(success), ByPath(failure), AllPaths(success, failure);
    Report(paths, Roots(paths, good, bad), good, bad)
  }

  method SchemaDifferences(success: seq<Field>, failure: seq<Field>) returns (differences: seq<Difference>)
    ensures differences == Differences(success, failure)
  {
    var good, bad, paths := ByPath(success), ByPath(failure), AllPaths(success, failure);
    var roots: seq<string> := [];
    for i := 0 to |paths|
      invariant roots == Roots(paths[..i], good, bad)
    {
      assert paths[..i + 1][..i] == paths[..i];
      if IsLossless(paths[i], Lookup(good, paths[i]), Lookup(bad, paths[i])) {
        roots := roots + [paths[i]];
      }
    }
    assert paths[..|paths|] == paths;
    differences := [];
    for i := 0 to |paths|
      invariant differences == Report(paths[..i], roots, good, bad)
    {
      assert paths[..i + 1][..i] == paths[..i];
      if !Skipped(paths[i], roots, good, bad) {
        differences := differences + [DifferenceAt(paths[i], good, bad)];
      }
    }
  }

  /** The verdict that lets a repair go ahead. */
  predicate SupportsLosslessRepair(differences: seq<Difference>) {
    differences != [] && forall i :: 0 <= i < |differences| ==> differences[i].lossless
  }

  // ---- What the report is about ----

  /** The field of a path is the last one listed for it. */
  ghost predicate LastListed(fields: seq<Field>, path: string, i: nat) {
    && i < |fields| && fields[i].path == path
    && forall j :: i < j < |fields| ==> fields[j].path != path
  }

  lemma {:induction false} ByPathIsLast(fields: seq<Field>, path: string)
    ensures path in ByPath(fields) <==> exists i :: 0 <= i < |fields| && fields[i].path == path
    ensures path in ByPath(fields) ==> exists i: nat :: LastListed(fields, path, i) && ByPath(fields)[path] == fields[i]
  {
    if fields != [] {
      var n := |fields| - 1;
      ByPathIsLast(fields[..n], path);
      if fields[n].path == path {
        assert LastListed(fields, path, n);
      } else if path in ByPath(fields[..n]) {
        var i: nat :| LastListed(fields[..n], path, i) && ByPath(fields[..n])[path] == fields[..n][i];
        assert LastListed(fields, path, i);
      }
      assert forall i :: 0 <= i < n ==> fields[..n][i] == fields[i];
    }
  }

  /** The type changes known to lose nothing: how the path ends, the successful type, the failing type. */
  const KNOWN_CHANGES: set<(string, string, string)> := {
    (".replacement_history", "array", "string"), (".content", "array", "string"),
    (".arguments", "string", "object"), (".arguments", "string", "array"),
    (".output", "string", "object"), (".output", "string", "array"), (".output", "array", "object"), (".output", "array", "array")}

  /** A known change, or an object inside content that became a bare text, or one text type in place of another. */
  ghost predicate LosslessChange(path: string, good: Field, bad: Field) {
    || (exists known <- KNOWN_CHANGES, front: string :: path == front + known.0 && good.valueType == known.1 && bad.valueType == known.2)
    || ((exists front: string, back: string :: path == front + ".content[" + back) && good.valueType == "object" && bad.valueType == "string")
    || ((exists front: string :: path == front + ".type") && good.valueType == bad.valueType == "string"
        && good.safeEnum in {Some("input_text"), Some("output_text")} && bad.safeEnum in {Some("input_text"), Some("output_text")})
  }

  /** The path goes on behind the root, with a field or an index. */
  ghost predicate Below(path: string, root: string) {
    exists rest: string :: path == root + rest && rest != "" && (rest[0] == '.' || rest[0] == '[')
  }

  /** The path is on one side only, and what stands before its first bracket is an array on both. */
  ghost predicate OneSidedInArray(path: string, good: Fields, bad: Fields) {
    && (path !in good || path !in bad)
    && exists front: string, back: string ::
         && path == front + "[" + back && '[' !in front
         && front in good && good[front].valueType == "array" && front in bad && bad[front].valueType == "array"
  }

  /** Strictly below a path whose own change is lossless. */
  ghost predicate BelowLossless(path: string, good: Fields, bad: Fields) {
    exists root :: root in good && root in bad && Below(path, root) && LosslessChange(root, good[root], bad[root])
  }

  /** The path is there on one side only, or with another type or another permitted value. */
  ghost predicate Differs(path: string, good: Fields, bad: Fields) {
    (path in good || path in bad) &&
    (path in good && path in bad ==> good[path].valueType != bad[path].valueType || good[path].safeEnum != bad[path].safeEnum)
  }

  /** What a difference shows of one side: "missing", or the type, and the permitted value behind a colon. */
  predicate Shows(shown: string, fields: Fields, path: string) {
    && (path !in fields ==> shown == "missing")
    && (path in fields && fields[path].safeEnum.None? ==> shown == fields[path].valueType)
    && (path in fields && fields[path].safeEnum.Some? ==> shown == fields[path].valueType + ":" + fields[path].safeEnum.value)
  }

  lemma EndsWithIff(path: string, suffix: string)
    ensures EndsWith(path, suffix) <==> exists front: string :: path == front + suffix
  {
    if EndsWith(path, suffix) {
      assert path == path[..|path| - |suffix|] + suffix;
    }
    if front: string :| path == front + suffix {
      assert path[|path| - |suffix|..] == suffix;
    }
  }

  lemma MentionsIff(path: string, part: string)
    ensures Mentions(path, part) <==> exists front: string, back: string :: path == front + part + back
  {
    if Mentions(path, part) {
      var i := Find(path, part, 0).value;
      assert path == path[..i] + part + path[i + |part|..];
    }
    if front: string, back: string :| path == front + part + back {
      assert MatchAt(path, part, |front|);
    }
  }

  lemma KnownTypeChangeIff(path: string, good: string, bad: string)
    ensures KnownTypeChange(path, good, bad) <==>
              || (exists known <- KNOWN_CHANGES, front: string :: path == front + known.0 && good == known.1 && bad == known.2)
              || ((exists front: string, back: string :: path == front + ".content[" + back) && good == "object" && bad == "string")
  {
    forall suffix: string ensures EndsWith(path, suffix) <==> exists front: string :: path == front + suffix {
      EndsWithIff(path, suffix);
    }
    MentionsIff(path, ".content[");
    hide EndsWith;
    hide Mentions;
    forall known <- KNOWN_CHANGES
      ensures (exists front: string :: path == front + known.0) && good == known.1 && bad == known.2 ==> KnownTypeChange(path, good, bad)
    {
    }
    if KnownTypeChange(path, good, bad) && !(Mentions(path, ".content[") && good == "object" && bad == "string") {
      KnownChangeHasRow(path, good, bad);
    }
  }

  lemma KnownChangeHasRow(path: string, good: string, bad: string)
    requires KnownTypeChange(path, good, bad) && !(Mentions(path, ".content[") && good == "object" && bad == "string")
    ensures exists known <- KNOWN_CHANGES :: EndsWith(path, known.0) && good == known.1 && bad == known.2
  {
    hide EndsWith;
    hide Mentions;
    var suffix := if EndsWith(path, ".replacement_history") && good == "array" && bad == "string" then ".replacement_history"
      else if EndsWith(path, ".content") && good == "array" && bad == "string" then ".content"
      else if EndsWith(path, ".arguments") && good == "string" && (bad == "object" || bad == "array") then ".arguments"
      else ".output";
    assert (suffix, good, bad) in KNOWN_CHANGES;
    assert EndsWith(path, suffix);
  }

  lemma LosslessIff(path: string, good: Field, bad: Field)
    ensures IsLossless(path, Some(good), Some(bad)) <==> LosslessChange(path, good, bad)
  {
    hide KnownTypeChange;
    KnownTypeChangeIff(path, good.valueType, bad.valueType);
    EndsWithIff(path, ".type");
    hide EndsWith;
  }

  lemma DescendantIff(path: string, root: string)
    ensures IsDescendant(path, root) <==> Below(path, root)
  {
    if IsDescendant(path, root) {
      assert path == root + path[|root|..];
    }
  }

  lemma ArrayVariationIff(path: string, good: Fields, bad: Fields)
    ensures (path !in good || path !in bad) && IsArrayVariation(path, good, bad) <==> OneSidedInArray(path, good, bad)
  {
    var at := FindWhere(path, c => c == '[');
    if at.Some? {
      var i := at.value;
      assert path == path[..i] + "[" + path[i + 1..] && '[' !in path[..i];
    }
    if OneSidedInArray(path, good, bad) {
      var front: string, back: string :| && path == front + "[" + back && '[' !in front
         && front in good && good[front].valueType == "array" && front in bad && bad[front].valueType == "array";
      assert path[|front|] == '[';
      assert forall j :: 0 <= j < |front| ==> path[j] == front[j];
      assert at == Some(|front|);
      assert path[..|front|] == front;
    }
  }

  // ---- What is reported ----

  lemma {:induction false} RootsAre(paths: seq<string>, success: Fields, failure: Fields, path: string)
    ensures path in Roots(paths, success, failure) <==>
              path in paths && IsLossless(path, Lookup(success, path), Lookup(failure, path))
  {
    if paths != [] {
      var n := |paths| - 1;
      assert paths == paths[..n] + [paths[n]];
      RootsAre(paths[..n], success, failure, path);
    }
  }

  lemma {:induction false} ReportAre(paths: seq<string>, roots: seq<string>, success: Fields, failure: Fields, d: Difference)
    ensures d in Report(paths, roots, success, failure) <==>
              d.path in paths && !Skipped(d.path, roots, success, failure) && d == DifferenceAt(d.path, success, failure)
  {
    if paths != [] {
      var n := |paths| - 1;
      assert paths == paths[..n] + [paths[n]];
      ReportAre(paths[..n], roots, success, failure, d);
    }
  }

  ghost predicate InOrder(report: seq<Difference>) {
    forall i, j :: 0 <= i < j < |report| ==> Less(report[i].path, report[j].path)
  }

  lemma {:induction false} ReportSorted(paths: seq<string>, roots: seq<string>, success: Fields, failure: Fields)
    requires Sorted(paths)
    ensures InOrder(Report(paths, roots, success, failure))
  {
    if paths != [] {
      var n := |paths| - 1;
      ReportSorted(paths[..n], roots, success, failure);
      var before := Report(paths[..n], roots, success, failure);
      forall i | 0 <= i < |before| ensures Less(before[i].path, paths[n]) {
        ReportAre(paths[..n], roots, success, failure, before[i]);
        assert before[i] in before;
        assert before[i].path in paths[..n];
      }
    }
  }

  /** Reported paths are strictly increasing, so each is reported once. */
  lemma ReportedInOrder(success: seq<Field>, failure: seq<Field>)
    ensures InOrder(Differences(success, failure))
    ensures var report := Differences(success, failure); forall i, j :: 0 <= i < j < |report| ==> report[i].path != report[j].path
  {
    hide Less;
    AllPathsSorted(success, failure);
    var good, bad, paths := ByPath(success), ByPath(failure), AllPaths(success, failure);
    ReportSorted(paths, Roots(paths, good, bad), good, bad);
    InOrderDistinct(Differences(success, failure));
  }

  lemma InOrderDistinct(report: seq<Difference>)
    requires InOrder(report)
    ensures forall i, j :: 0 <= i < j < |report| ==> report[i].path != report[j].path
  {
    hide Less;
    forall i, j | 0 <= i < j < |report| ensures report[i].path != report[j].path {
      LessIrreflexive(report[i].path);
    }
  }

  lemma SkippedIff(success: seq<Field>, failure: seq<Field>, path: string)
    ensures var good, bad, paths := ByPath(success), ByPath(failure), AllPaths(success, failure);
            Skipped(path, Roots(paths, good, bad), good, bad) <==>
              Same(Lookup(good, path), Lookup(bad, path)) || BelowLossless(path, good, bad) || OneSidedInArray(path, good, bad)
  {
    AllPathsSorted(success, failure);
    var good, bad, paths := ByPath(success), ByPath(failure), AllPaths(success, failure);
    var roots := Roots(paths, good, bad);
    ArrayVariationIff(path, good, bad);
    hide IsArrayVariation;
    hide OneSidedInArray;
    if UnderRoot(path, roots) {
      var i :| 0 <= i < |roots| && path != roots[i] && IsDescendant(path, roots[i]);
      assert roots[i] in roots;
      RootsAre(paths, good, bad, roots[i]);
      DescendantIff(path, roots[i]);
      LosslessIff(roots[i], good[roots[i]], bad[roots[i]]);
      assert BelowLossless(path, good, bad);
    }
    if BelowLossless(path, good, bad) {
      var root :| root in good && root in bad && Below(path, root) && LosslessChange(root, good[root], bad[root]);
      RootsAre(paths, good, bad, root);
      DescendantIff(path, root);
      LosslessIff(root, good[root], bad[root]);
      var i :| 0 <= i < |roots| && roots[i] == root;
      assert path != roots[i];
    }
  }

  /** A path is reported exactly when it differs and is neither below a lossless change nor one-sided in a common array. */
  lemma ReportedExactly(success: seq<Field>, failure: seq<Field>, path: string)
    ensures var good, bad := ByPath(success), ByPath(failure);
            (exists d :: d in Differences(success, failure) && d.path == path) <==>
              Differs(path, good, bad) && !BelowLossless(path, good, bad) && !OneSidedInArray(path, good, bad)
  {
    AllPathsSorted(success, failure);
    var good, bad, paths := ByPath(success), ByPath(failure), AllPaths(success, failure);
    var roots := Roots(paths, good, bad);
    SkippedIff(success, failure, path);
    hide Skipped;
    hide BelowLossless;
    hide OneSidedInArray;
    ReportAre(paths, roots, good, bad, DifferenceAt(path, good, bad));
    forall d | d in Differences(success, failure) && d.path == path ensures !Skipped(path, roots, good, bad) && path in paths {
      ReportAre(paths, roots, good, bad, d);
    }
  }

  /** What is reported shows both sides as they are, the successful one first, and says lossless exactly of lossless changes. */
  lemma ReportedIsReal(success: seq<Field>, failure: seq<Field>, i: nat)
    requires i < |Differences(success, failure)|
    ensures var d, good, bad := Differences(success, failure)[i], ByPath(success), ByPath(failure);
            && Differs(d.path, good, bad)
            && Shows(d.successfulType, good, d.path) && Shows(d.failingType, bad, d.path)
            && (d.lossless <==> d.path in good && d.path in bad && LosslessChange(d.path, good[d.path], bad[d.path]))
  {
    AllPathsSorted(success, failure);
    var good, bad, paths := ByPath(success), ByPath(failure), AllPaths(success, failure);
    var d := Differences(success, failure)[i];
    ReportAre(paths, Roots(paths, good, bad), good, bad, d);
    if d.path in good && d.path in bad {
      LosslessIff(d.path, good[d.path], bad[d.path]);
    }
    hide LosslessChange;
    hide KnownTypeChange;
    hide KnownEnumChange;
  }

  /** What a lossless verdict means for every path that differs. */
  ghost predicate Accounted(path: string, good: Fields, bad: Fields) {
    || (path in good && path in bad && LosslessChange(path, good[path], bad[path]))
    || BelowLossless(path, good, bad) || OneSidedInArray(path, good, bad)
  }

  /** The verdict is given exactly when some difference shows and every differing path is lossless itself, below a
      lossless one, or one-sided in a common array; equal schemas report nothing. */
  lemma VerdictExactly(success: seq<Field>, failure: seq<Field>)
    ensures var good, bad, report := ByPath(success), ByPath(failure), Differences(success, failure);
            SupportsLosslessRepair(report) <==>
              && report != []
              && forall path :: Differs(path, good, bad) ==> Accounted(path, good, bad)
    ensures ByPath(success) == ByPath(failure) ==> Differences(success, failure) == []
  {
    var good, bad, report := ByPath(success), ByPath(failure), Differences(success, failure);
    hide Differences;
    hide LosslessChange;
    hide BelowLossless;
    hide OneSidedInArray;
    if good == bad && report != [] {
      ReportedIsReal(success, failure, 0);
    }
    if SupportsLosslessRepair(report) {
      forall path | Differs(path, good, bad) ensures Accounted(path, good, bad) {
        ReportedExactly(success, failure, path);
        if d :| d in report && d.path == path {
          var i :| 0 <= i < |report| && report[i] == d;
          ReportedIsReal(success, failure, i);
        }
      }
    } else if report != [] {
      var i :| 0 <= i < |report| && !report[i].lossless;
      ReportedIsReal(success, failure, i);
      ReportedExactly(success, failure, report[i].path);
      assert report[i] in report;
      assert !Accounted(report[i].path, good, bad);
    }
  }

  // ---- Roots that have not changed ----

  /** An unchanged field counts as a lossless root exactly when it is an output array or a text type. */
  lemma UnchangedRoots(path: string, good: Field, bad: Field)
    requires Same(Some(good), Some(bad))
    ensures IsLossless(path, Some(good), Some(bad)) <==>
              || (EndsWith(path, ".output") && good.valueType == "array")
              || (EndsWith(path, ".type") && good.valueType == "string" && IsTextEnum(good.safeEnum))
  {
    assert "array" != "string" && "object" != "string";
  }

  /** So nothing below an output that is an array on both sides is ever reported, whatever changed there. */
  lemma HiddenBelowOutput(success: seq<Field>, failure: seq<Field>, root: string, i: nat)
    requires (exists front: string :: root == front + ".output") && IsArray(ByPath(success), root) && IsArray(ByPath(failure), root)
    requires i < |Differences(success, failure)|
    ensures !Below(Differences(success, failure)[i].path, root)
  {
    var good, bad, d := ByPath(success), ByPath(failure), Differences(success, failure)[i];
    ReportedExactly(success, failure, d.path);
    assert d in Differences(success, failure);
    assert (".output", "array", "array") in KNOWN_CHANGES;
    assert LosslessChange(root, good[root], bad[root]);
    assert Below(d.path, root) ==> BelowLossless(d.path, good, bad);
  }

  /** A number in place of a text below an unchanged output goes unreported. */
  lemma OutputHidesAChange()
    ensures var root := Field("$.output", "array", None);
            Differences([root, Field("$.output[0].text", "string", None)], [root, Field("$.output[0].text", "number", None)]) == []
  {
    var root := Field("$.output", "array", None);
    var path := "$.output[0].text";
    var success, failure := Field(path, "string", None), Field(path, "number", None);
    TwoFields(root, success);
    TwoFields(root, failure);
    if Differences([root, success], [root, failure]) != [] {
      ReportedIsReal([root, success], [root, failure], 0);
      OutputPaths();
      HiddenBelowOutput([root, success], [root, failure], root.path, 0);
    }
  }

  lemma TwoFields(a: Field, b: Field)
    ensures ByPath([a, b]) == map[a.path := a][b.path := b]
  {
    assert [a, b][..1] == [a] && [a][..0] == [];
    assert ByPath([a]) == map[a.path := a];
  }

  lemma OutputPaths()
    ensures "$.output" == "$" + ".output" && Below("$.output[0].text", "$.output")
  {
    assert "$.output[0].text" == "$.output" + "[0].text";
  }
}
