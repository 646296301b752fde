/**
 Names for Prometheus. Text is a sequence of characters; lower-casing is `strings.ToLower`, whose table
 outside ASCII is a parameter that has to behave like a lower-casing (IsLowering).
 */
module PromNames {
  import opened Collections

  type Lowering = char -> char

  predicate IsUpper(c: char) { 'A' <= c <= 'Z' }

  predicate IsLower(c: char) { 'a' <= c <= 'z' }

  predicate IsDigit(c: char) { '0' <= c <= '9' }

  /** The first class of the splitting expression; the second is IsUpper. */
  predicate IsLowerOrDigit(c: char) {
    IsLower(c) || IsDigit(c)
  }

  /** The characters that the replacer replaces by an underscore. */
  predicate IsSeparator(c: char) {
    c == ' ' || c == ',' || c == '\t' || c == '/' || c == '\\' || c == '.' || c == '-' || c == ':' || c == '='
    || c == '\U{201C}' || c == '@' || c == '<' || c == '>'
  }

  predicate IsReplaced(c: char) {
    IsSeparator(c) || c == '%'
  }

  function AsciiLower(c: char): char {
    if IsUpper(c) then (c as int + 32) as char else c
  }

  ghost predicate IsLowering(lower: Lowering) {
    && (forall c :: c <= '\U{7F}' ==> lower(c) == AsciiLower(c))
    && (forall c :: !IsUpper(lower(c)) && lower(lower(c)) == lower(c))
    && (forall c :: !IsReplaced(c) ==> !IsReplaced(lower(c)))
    && (forall c :: IsReplaced(c) ==> lower(c) == c)
  }

  // ---- the three passes ----

  predicate Boundary(s: string, i: nat) {
    i + 1 < |s| && IsLowerOrDigit(s[i]) && IsUpper(s[i + 1])
  }

  /** The leftmost match at or after `i`. */
  function FindMatch(s: string, i: nat): (r: Option<nat>)
    ensures r.Some? ==> i <= r.value && Boundary(s, r.value)
    ensures forall j: nat :: i <= j && Boundary(s, j) ==> r.Some? && r.value <= j
    decreases |s| - i
  {
    if i >= |s| then None else if Boundary(s, i) then Some(i) else FindMatch(s, i + 1)
  }

  /** `ReplaceAllString` from `i` on: the search goes on behind the two characters of each match. */
  function ReplaceMatches(s: string, i: nat): string
    requires i <= |s|
    decreases |s| - i
  {
    match FindMatch(s, i)
    case None => s[i..]
    case Some(j) => s[i..j + 1] + "." + [s[j + 1]] + ReplaceMatches(s, j + 2)
  }

  function ReplaceChar(c: char): string {
    if c == '%' then "_percent" else if IsSeparator(c) then "_" else [c]
  }

  function ReplaceChars(s: string): string {
    FlatMap(ReplaceChar, s)
  }

  function ToLower(lower: Lowering, s: string): (r: string)
    ensures |r| == |s|
  {
    seq(|s|, i requires 0 <= i < |s| => lower(s[i]))
  }

  function PromString(lower: Lowering, text: string): string {
    ToLower(lower, ReplaceChars(ReplaceMatches(text, 0)))
  }

  // ---- one scan ----

  /** One pass from left to right that only looks at the character before. */
  function Scan(lower: Lowering, s: string, i: nat): string
    requires i <= |s|
    decreases |s| - i
  {
    if i == |s| then []
    else
      (if i > 0 && Boundary(s, i - 1) then "_" else []) + ToLower(lower, ReplaceChar(s[i])) + Scan(lower, s, i + 1)
  }

  /** The text from `i` on with a dot at every boundary. */
  function Marked(s: string, i: nat): string
    requires i <= |s|
    decreases |s| - i
  {
    if i == |s| then []
    else (if i > 0 && Boundary(s, i - 1) then "." else []) + [s[i]] + Marked(s, i + 1)
  }

  lemma {:induction false} MarkedWithoutBoundary(s: string, i: nat, j: nat)
    requires i <= j <= |s| && forall k: nat :: i <= k + 1 < j ==> !Boundary(s, k)
    ensures Marked(s, i) == s[i..j] + Marked(s, j)
    decreases j - i
  {
    var rest := Marked(s, j);
    if i < j {
      MarkedBetween(s, i);
      MarkedWithoutBoundary(s, i + 1, j);
      SliceStep(s, i, j, rest);
    } else {
      assert s[i..j] + rest == rest;
    }
  }

  lemma MarkedBetween(s: string, i: nat)
    requires i < |s| && (i > 0 ==> !Boundary(s, i - 1))
    ensures Marked(s, i) == [s[i]] + Marked(s, i + 1)
  {
  }

  lemma SliceStep(s: string, i: nat, j: nat, rest: string)
    requires i < j <= |s|
    ensures [s[i]] + (s[i + 1..j] + rest) == s[i..j] + rest
  {
  }

  /** The two classes are disjoint, so no match hides a boundary: there is a dot at every one of them. */
  lemma {:induction false} MatchesAreBoundaries(s: string, i: nat)
    requires i <= |s| && (i > 0 ==> !Boundary(s, i - 1))
    ensures ReplaceMatches(s, i) == Marked(s, i)
    decreases |s| - i
  {
    match FindMatch(s, i)
    case None =>
      MarkedWithoutBoundary(s, i, |s|);
      assert s[i..|s|] + Marked(s, |s|) == s[i..];
    case Some(j) =>
      MatchesAreBoundaries(s, j + 2);
      MarkedToMatch(s, i, j);
  }

  lemma MarkedToMatch(s: string, i: nat, j: nat)
    requires i <= j && Boundary(s, j) && forall k: nat :: i <= k + 1 <= j ==> !Boundary(s, k)
    ensures Marked(s, i) == s[i..j + 1] + "." + [s[j + 1]] + Marked(s, j + 2)
  {
    MarkedWithoutBoundary(s, i, j + 1);
    MarkedAtBoundary(s, j);
    Regroup(s[i..j + 1], [s[j + 1]], Marked(s, j + 2));
  }

  lemma Regroup(a: string, b: string, rest: string)
    ensures a + ("." + b + rest) == a + "." + b + rest
  {
  }

  lemma MarkedAtBoundary(s: string, j: nat)
    requires Boundary(s, j)
    ensures Marked(s, j + 1) == "." + [s[j + 1]] + Marked(s, j + 2)
  {
  }

  lemma LowerAppend(lower: Lowering, a: string, b: string)
    ensures ToLower(lower, a + b) == ToLower(lower, a) + ToLower(lower, b)
  {
  }

  lemma {:induction false} ScanOfMarked(lower: Lowering, s: string, i: nat)
    requires IsLowering(lower) && i <= |s|
    ensures ToLower(lower, ReplaceChars(Marked(s, i))) == Scan(lower, s, i)
    decreases |s| - i
  {
    if i < |s| {
      var dot := if i > 0 && Boundary(s, i - 1) then "." else [];
      var rest := Marked(s, i + 1);
      ScanOfMarked(lower, s, i + 1);
      assert Marked(s, i) == (dot + [s[i]]) + rest;
      FlatMapAppend(ReplaceChar, dot + [s[i]], rest);
      FlatMapAppend(ReplaceChar, dot, [s[i]]);
      FlatMapOne(ReplaceChar, s[i]);
      FlatMapOne(ReplaceChar, '.');
      LowerAppend(lower, ReplaceChars(dot) + ReplaceChar(s[i]), ReplaceChars(rest));
      LowerAppend(lower, ReplaceChars(dot), ReplaceChar(s[i]));
      assert ToLower(lower, "_") == "_";
    }
  }

  /** The three passes are the one scan. */
  lemma PromStringIsScan(lower: Lowering, text: string)
    requires IsLowering(lower)
    ensures PromString(lower, text) == Scan(lower, text, 0)
  {
    MatchesAreBoundaries(text, 0);
    ScanOfMarked(lower, text, 0);
  }

  // ---- character by character ----

  /** What becomes of one character. */
  lemma PromStringOfChar(lower: Lowering, c: char)
    requires IsLowering(lower)
    ensures PromString(lower, [c])
         == if c == '%' then "_percent" else if c in " ,\t/\\.-:=\U{201C}@<>" then "_" else [lower(c)]
  {
    PromStringIsScan(lower, [c]);
    assert Scan(lower, [c], 0) == ToLower(lower, ReplaceChar(c));
    SeparatorsListed(c);
    if c == '%' {
      assert ToLower(lower, "_percent") == "_percent";
    }
  }

  lemma SeparatorsListed(c: char)
    ensures c in " ,\t/\\.-:=\U{201C}@<>" <==> IsSeparator(c)
  {
    var list := " ,\t/\\.-:=\U{201C}@<>";
    assert list == [' ', ',', '\t', '/', '\\', '.', '-', ':', '=', '\U{201C}', '@', '<', '>'];
  }

  /** What the scan writes for one character. */
  function Piece(lower: Lowering, s: string, i: nat): string
    requires i < |s|
  {
    (if i > 0 && Boundary(s, i - 1) then "_" else []) + ToLower(lower, ReplaceChar(s[i]))
  }

  lemma ScanStep(lower: Lowering, s: string, i: nat)
    requires i < |s|
    ensures Scan(lower, s, i) == Piece(lower, s, i) + Scan(lower, s, i + 1)
  {
  }

  lemma PieceOfFirst(lower: Lowering, a: string, b: string, i: nat)
    requires i < |a|
    ensures Piece(lower, a + b, i) == Piece(lower, a, i)
  {
    assert (a + b)[i] == a[i] && (i > 0 ==> (a + b)[i - 1] == a[i - 1]);
  }

  /** `t` ends in `b`, from `off` on. */
  ghost predicate EndsIn(t: string, b: string, off: nat) {
    |t| == off + |b| && forall k :: 0 <= k < |b| ==> t[off + k] == b[k]
  }

  lemma PieceOfSecond(lower: Lowering, t: string, b: string, off: nat, j: nat)
    requires EndsIn(t, b, off) && 1 <= j < |b|
    ensures Piece(lower, t, off + j) == Piece(lower, b, j)
  {
    assert t[off + j] == b[j] && t[off + (j - 1)] == b[j - 1];
  }

  lemma {:induction false} ScanOfSecond(lower: Lowering, t: string, b: string, off: nat, j: nat)
    requires EndsIn(t, b, off) && 1 <= j <= |b|
    ensures Scan(lower, t, off + j) == Scan(lower, b, j)
    decreases |b| - j
  {
    if j < |b| {
      ScanOfSecond(lower, t, b, off, j + 1);
      PieceOfSecond(lower, t, b, off, j);
      ScanStep(lower, t, off + j);
      ScanStep(lower, b, j);
    }
  }

  /** Between the two parts: an underscore if the first ends in a lower-case letter or digit and a capital follows. */
  function Joint(a: string, b: string): string {
    if a != [] && b != [] && ('a' <= a[|a| - 1] <= 'z' || '0' <= a[|a| - 1] <= '9') && 'A' <= b[0] <= 'Z'
    then "_"
    else ""
  }

  lemma PieceAtJoint(lower: Lowering, a: string, b: string)
    requires b != []
    ensures Piece(lower, a + b, |a|) == Joint(a, b) + Piece(lower, b, 0)
  {
    assert (a + b)[|a|] == b[0] && (a != [] ==> (a + b)[|a| - 1] == a[|a| - 1]);
  }

  lemma {:induction false} ScanOfFirst(lower: Lowering, a: string, b: string, i: nat)
    requires i <= |a|
    ensures Scan(lower, a + b, i) == Scan(lower, a, i) + Joint(a, b) + Scan(lower, b, 0)
    decreases |a| - i
  {
    if i < |a| {
      ScanOfFirst(lower, a, b, i + 1);
      PieceOfFirst(lower, a, b, i);
      ScanStep(lower, a + b, i);
      ScanStep(lower, a, i);
    } else {
      ScanAtJoint(lower, a, b);
    }
  }

  lemma ScanAtJoint(lower: Lowering, a: string, b: string)
    ensures Scan(lower, a + b, |a|) == Joint(a, b) + Scan(lower, b, 0)
  {
    if b == [] {
      assert a + b == a;
    } else {
      var t := a + b;
      var rest := Scan(lower, b, 1);
      ScanOfSecond(lower, t, b, |a|, 1);
      PieceAtJoint(lower, a, b);
      ScanStep(lower, t, |a|);
      ScanStep(lower, b, 0);
      Associate(Joint(a, b), Piece(lower, b, 0), rest);
    }
  }

  lemma Associate(a: string, b: string, c: string)
    ensures (a + b) + c == a + (b + c)
  {
  }

  /** A text is converted part by part; with the law for one character this says what becomes of every text. */
  lemma PromStringOfParts(lower: Lowering, a: string, b: string)
    requires IsLowering(lower)
    ensures PromString(lower, a + b) == PromString(lower, a) + Joint(a, b) + PromString(lower, b)
  {
    PromStringIsScan(lower, a + b);
    PromStringIsScan(lower, a);
    PromStringIsScan(lower, b);
    ScanOfFirst(lower, a, b, 0);
  }

  // ---- what comes out ----

  ghost predicate Clean(lower: Lowering, s: string) {
    forall i :: 0 <= i < |s| ==> !IsUpper(s[i]) && !IsReplaced(s[i]) && lower(s[i]) == s[i]
  }

  lemma {:induction false} ScanIsClean(lower: Lowering, s: string, i: nat)
    requires IsLowering(lower) && i <= |s|
    ensures Clean(lower, Scan(lower, s, i))
    decreases |s| - i
  {
    if i < |s| {
      ScanIsClean(lower, s, i + 1);
      assert Clean(lower, ToLower(lower, ReplaceChar(s[i])));
      assert lower('_') == '_';
    }
  }

  /** No ASCII capital and no replaced character is left. */
  lemma PromStringIsClean(lower: Lowering, text: string)
    requires IsLowering(lower)
    ensures Clean(lower, PromString(lower, text))
  {
    PromStringIsScan(lower, text);
    ScanIsClean(lower, text, 0);
  }

  lemma {:induction false} CleanIsKept(lower: Lowering, s: string, i: nat)
    requires Clean(lower, s) && i <= |s|
    ensures Scan(lower, s, i) == s[i..]
    decreases |s| - i
  {
    if i < |s| {
      CleanIsKept(lower, s, i + 1);
      assert ToLower(lower, ReplaceChar(s[i])) == [s[i]];
    }
  }

  /** A second application changes nothing, and neither does the extra lower-casing of metric and statistic. */
  lemma PromStringIsIdempotent(lower: Lowering, text: string)
    requires IsLowering(lower)
    ensures PromString(lower, PromString(lower, text)) == PromString(lower, text)
    ensures ToLower(lower, PromString(lower, text)) == PromString(lower, text)
  {
    var once := PromString(lower, text);
    PromStringIsClean(lower, text);
    PromStringIsScan(lower, once);
    CleanIsKept(lower, once, 0);
  }

  // ---- metric names ----

  predicate HasPrefix(s: string, prefix: string) {
    prefix <= s
  }

  /** The name of an exported sample. */
  function MetricName(lower: Lowering, namespace: string, metric: string, statistic: string): string {
    var lowered := ToLower(lower, namespace);
    var promNs := if HasPrefix(lowered, "aws") then lowered else "cpe_aws_" + lowered;
    PromString(lower, promNs) + "_" + ToLower(lower, PromString(lower, metric))
    + "_" + ToLower(lower, PromString(lower, statistic))
  }

  /** Parts that need no conversion are joined as they are, namespace, metric and statistic, behind the prefix. */
  lemma CleanPartsAreJoined(lower: Lowering, namespace: string, metric: string, statistic: string)
    requires IsLowering(lower) && Clean(lower, namespace) && Clean(lower, metric) && Clean(lower, statistic)
    ensures MetricName(lower, namespace, metric, statistic)
         == (if |namespace| >= 3 && namespace[..3] == "aws" then "" else "cpe_aws_")
            + namespace + "_" + metric + "_" + statistic
  {
    CleanNamespace(lower, namespace);
    CleanIsUnchanged(lower, metric);
    CleanIsUnchanged(lower, statistic);
  }

  lemma CleanNamespace(lower: Lowering, namespace: string)
    requires IsLowering(lower) && Clean(lower, namespace)
    ensures ToLower(lower, namespace) == namespace
    ensures PromString(lower, if HasPrefix(namespace, "aws") then namespace else "cpe_aws_" + namespace)
         == (if |namespace| >= 3 && namespace[..3] == "aws" then "" else "cpe_aws_") + namespace
  {
    CleanIsUnchanged(lower, namespace);
    PrefixIsClean(lower, namespace);
    CleanIsUnchanged(lower, "cpe_aws_" + namespace);
    assert HasPrefix(namespace, "aws") <==> |namespace| >= 3 && namespace[..3] == "aws";
  }

  lemma PrefixIsClean(lower: Lowering, s: string)
    requires IsLowering(lower) && Clean(lower, s)
    ensures Clean(lower, "cpe_aws_" + s)
  {
    var prefix := "cpe_aws_";
    assert prefix == ['c', 'p', 'e', '_', 'a', 'w', 's', '_'];
    assert Clean(lower, prefix);
    assert forall i :: 0 <= i < |s| ==> (prefix + s)[|prefix| + i] == s[i];
  }

  lemma CleanIsUnchanged(lower: Lowering, s: string)
    requires IsLowering(lower) && Clean(lower, s)
    ensures PromString(lower, s) == s && ToLower(lower, s) == s
  {
    PromStringIsScan(lower, s);
    CleanIsKept(lower, s, 0);
  }

  /** Any other parts have the name of their converted forms. */
  lemma PartsAreConverted(lower: Lowering, namespace: string, metric: string, statistic: string)
    requires IsLowering(lower)
    ensures MetricName(lower, namespace, metric, statistic)
         == MetricName(lower, ToLower(lower, namespace), PromString(lower, metric), PromString(lower, statistic))
  {
    PromStringIsIdempotent(lower, metric);
    PromStringIsIdempotent(lower, statistic);
    assert ToLower(lower, ToLower(lower, namespace)) == ToLower(lower, namespace);
  }

  predicate IsNameStart(c: char) {
    IsLower(c) || IsUpper(c) || c == '_' || c == ':'
  }

  /** The grammar [a-zA-Z_:][a-zA-Z0-9_:]* of the Prometheus data model, section "Metric names and labels". */
  predicate IsMetricName(s: string) {
    && s != [] && IsNameStart(s[0])
    && (forall i :: 0 <= i < |s| ==> IsNameStart(s[i]) || IsDigit(s[i]))
  }

  /** Letters, digits, the underscore and everything the replacer replaces. */
  predicate IsPlain(s: string) {
    forall i :: 0 <= i < |s| ==> IsLower(s[i]) || IsUpper(s[i]) || IsDigit(s[i]) || s[i] == '_' || IsReplaced(s[i])
  }

  predicate IsNameBody(s: string) {
    forall i :: 0 <= i < |s| ==> IsLower(s[i]) || IsDigit(s[i]) || s[i] == '_'
  }

  lemma {:induction false} PlainBecomesBody(lower: Lowering, s: string, i: nat)
    requires IsLowering(lower) && IsPlain(s) && i <= |s|
    ensures IsNameBody(Scan(lower, s, i))
    decreases |s| - i
  {
    if i < |s| {
      PlainBecomesBody(lower, s, i + 1);
      assert IsNameBody(ToLower(lower, ReplaceChar(s[i])));
    }
  }

  /** Every name built from plain text is a metric name. */
  lemma PlainNamesAreValid(lower: Lowering, namespace: string, metric: string, statistic: string)
    requires IsLowering(lower) && IsPlain(namespace) && IsPlain(metric) && IsPlain(statistic)
    ensures IsMetricName(MetricName(lower, namespace, metric, statistic))
  {
    var lowered := ToLower(lower, namespace);
    LoweredIsPlain(lower, namespace);
    var promNs := if HasPrefix(lowered, "aws") then lowered else "cpe_aws_" + lowered;
    assert promNs[0] == 'a' || promNs[0] == 'c';
    PlainBecomesName(lower, promNs);
    PlainBecomesName(lower, metric);
    PlainBecomesName(lower, statistic);
    PromStringIsIdempotent(lower, metric);
    PromStringIsIdempotent(lower, statistic);
    BodyAppend(PromString(lower, promNs), PromString(lower, metric), PromString(lower, statistic));
  }

  lemma PlainBecomesName(lower: Lowering, s: string)
    requires IsLowering(lower) && IsPlain(s)
    ensures IsNameBody(PromString(lower, s))
    ensures s != [] && IsLower(s[0]) ==> PromString(lower, s) != [] && PromString(lower, s)[0] == s[0]
  {
    PromStringIsScan(lower, s);
    PlainBecomesBody(lower, s, 0);
    if s != [] && IsLower(s[0]) {
      LowerIsKept(lower, s[0]);
      assert Scan(lower, s, 0) == [] + [s[0]] + Scan(lower, s, 1);
    }
  }

  lemma LowerIsKept(lower: Lowering, c: char)
    requires IsLowering(lower) && IsLower(c)
    ensures ToLower(lower, ReplaceChar(c)) == [c]
  {
  }

  lemma BodyAppend(a: string, b: string, c: string)
    requires IsNameBody(a) && IsNameBody(b) && IsNameBody(c) && a != [] && IsLower(a[0])
    ensures IsMetricName(a + "_" + b + "_" + c)
  {
    var body := a + "_" + b + "_" + c;
    assert IsNameBody(body);
    assert body[0] == a[0];
  }

  lemma LoweredIsPlain(lower: Lowering, s: string)
    requires IsLowering(lower) && IsPlain(s)
    ensures IsPlain(ToLower(lower, s))
  {
  }
}
