/** Node and edge vocabulary of the knowledge graph (backend/app/graph/schema.py). */
module GraphSchema {
  import opened Text

  datatype Result<+T> = Ok(value: T) | Err(error: Error)

  datatype Error = UnknownLabel | EmptyKey | UnknownRelationship | WrongEndpoints

  /** A closed vocabulary: the node labels, which labels each relationship type
      joins, and how node keys are normalized. */
  datatype Vocabulary =
    Vocabulary(labels: set<string>, allowed: map<string, (string, string)>, normalize: string -> string)
  {
    /** What uids rely on: no label holds a colon, types start with a capital and
        hold no bracket, and normalizing a key twice is normalizing it once. */
    ghost predicate WellFormed() {
      && (forall l :: l in labels ==> ':' !in l)
      && (forall k :: k in allowed ==> k != "" && IsUpper(k[0]) && ']' !in k)
      && (forall s :: IsLowered(normalize(s)) && normalize(normalize(s)) == normalize(s))
    }
  }

  const LABELS: set<string> :=
    {"Paper", "Author", "Institution", "Dataset", "Model", "Task", "Metric", "Method", "Benchmark", "Venue"}

  const ALLOWED_EDGES: map<string, (string, string)> := map[
    "AUTHORED_BY" := ("Paper", "Author"),
    "AFFILIATED_WITH" := ("Author", "Institution"),
    "CITES" := ("Paper", "Paper"),
    "EVALUATES_ON" := ("Paper", "Benchmark"),
    "USES_DATASET" := ("Paper", "Dataset"),
    "PROPOSES" := ("Paper", "Model"),
    "USES_METHOD" := ("Paper", "Method"),
    "REPORTS" := ("Paper", "Metric"),
    "ADDRESSES" := ("Paper", "Task"),
    "PUBLISHED_IN" := ("Paper", "Venue"),
    "COMPARES_TO" := ("Model", "Model")]

  /** The vocabulary of the repository; the graph results hold for any well-formed one. */
  function ResearchVocabulary(): Vocabulary {
    Vocabulary(LABELS, ALLOWED_EDGES, NormalizeKey)
  }

  lemma LabelsHaveNoColon()
    ensures forall l :: l in LABELS ==> ':' !in l
  {
  }

  lemma TypesAreCapitalized()
    ensures forall k :: k in ALLOWED_EDGES ==> k != "" && IsUpper(k[0]) && ']' !in k
  {
  }

  lemma ResearchVocabularyWellFormed()
    ensures ResearchVocabulary().WellFormed()
  {
    LabelsHaveNoColon();
    TypesAreCapitalized();
    forall s ensures IsLowered(NormalizeKey(s)) && NormalizeKey(NormalizeKey(s)) == NormalizeKey(s) {
      NormalizedFacts(s);
    }
  }

  function FirstWord(s: string): (w: string)
    ensures |w| <= |s| && w == s[..|w|]
    ensures forall c :: c in w ==> !IsSpace(c)
    ensures |w| < |s| ==> IsSpace(s[|w|])
  {
    if s == "" || IsSpace(s[0]) then "" else [s[0]] + FirstWord(s[1..])
  }

  /** `str.split()`: the maximal runs of non-whitespace characters. */
  function Words(s: string): (ws: seq<string>)
    decreases |s|
  {
    if s == "" then []
    else if IsSpace(s[0]) then Words(s[1..])
    else [FirstWord(s)] + Words(s[|FirstWord(s)|..])
  }

  predicate IsPunctuation(c: char) {
    || c == ' ' || c == '.' || c == ',' || c == ';' || c == ':' || c == '(' || c == ')'
    || c == '[' || c == ']' || c == '{' || c == '}' || c == '"' || c == '\''
  }

  function NormalizeKey(value: string): (key: string) {
    StripBy(Join(" ", Words(Lower(value))), IsPunctuation)
  }

  // ---------------------------------------------------------------- entities

  function NodeUid(nodeLabel: string, key: string): string {
    nodeLabel + ":" + key
  }

  function EdgeUid(kind: string, start: string, end: string): string {
    start + "-[" + kind + "]->" + end
  }

  /** A node object, by what never changes about it; `uid` is its derived identifier and
      `serial` tells it from other objects with the same label and key. Its properties
      change, and are kept apart. */
  datatype GraphNode = GraphNode(uid: string, nodeLabel: string, key: string, serial: nat) {
    /** What construction guarantees. */
    predicate Valid(v: Vocabulary) {
      && uid == NodeUid(nodeLabel, key)
      && nodeLabel in v.labels && key != "" && IsLowered(key) && v.normalize(key) == key
    }
  }

  /** An edge; `uid` is derived from its type and endpoints. */
  datatype GraphRelationship =
    GraphRelationship(uid: string, kind: string, start: GraphNode, end: GraphNode, properties: map<string, string>)
  {
    predicate Valid(v: Vocabulary) {
      && uid == EdgeUid(kind, start.uid, end.uid)
      && start.Valid(v) && end.Valid(v)
      && kind in v.allowed && v.allowed[kind] == (start.nodeLabel, end.nodeLabel)
    }
  }

  /** Construction of a node; the key is normalized on the way in. */
  function MakeNode(v: Vocabulary, nodeLabel: string, key: string, serial: nat): (r: Result<GraphNode>)
    ensures v.WellFormed() && r.Ok? ==>
              r.value.Valid(v) && r.value ==
                GraphNode(NodeUid(nodeLabel, v.normalize(key)), nodeLabel, v.normalize(key), serial)
    ensures r.Ok? <==> nodeLabel in v.labels && v.normalize(key) != ""
  {
    var normalized := v.normalize(key);
    if nodeLabel !in v.labels then Err(UnknownLabel)
    else if normalized == "" then Err(EmptyKey)
    else Ok(GraphNode(NodeUid(nodeLabel, normalized), nodeLabel, normalized, serial))
  }

  function MakeRelationship(v: Vocabulary, kind: string, start: GraphNode, end: GraphNode,
                            properties: map<string, string>)
    : (r: Result<GraphRelationship>)
    requires start.Valid(v) && end.Valid(v)
    ensures r.Ok? ==>
              r.value.Valid(v) && r.value ==
                GraphRelationship(EdgeUid(kind, start.uid, end.uid), kind, start, end, properties)
    ensures r.Ok? <==> kind in v.allowed && v.allowed[kind] == (start.nodeLabel, end.nodeLabel)
  {
    if kind !in v.allowed then Err(UnknownRelationship)
    else if (start.nodeLabel, end.nodeLabel) != v.allowed[kind] then Err(WrongEndpoints)
    else Ok(GraphRelationship(EdgeUid(kind, start.uid, end.uid), kind, start, end, properties))
  }

  // ------------------------------------------- normalize_key is idempotent

  /** Words separated by exactly one space, with none at either end. */
  predicate Tidy(s: string) {
    forall i :: 0 <= i < |s| && IsSpace(s[i]) ==> s[i] == ' ' && 0 < i < |s| - 1 && !IsSpace(s[i + 1])
  }

  lemma TidyConcat(w: string, t: string)
    requires w != "" && (forall i :: 0 <= i < |w| ==> !IsSpace(w[i])) && Tidy(t) && t != "" && !IsSpace(t[0])
    ensures Tidy(w + " " + t) && (IsLowered(w) && IsLowered(t) ==> IsLowered(w + " " + t))
  {
    var s := w + " " + t;
    forall i | 0 <= i < |s| && IsSpace(s[i]) ensures s[i] == ' ' && 0 < i < |s| - 1 && !IsSpace(s[i + 1]) {
      if i > |w| { assert s[i] == t[i - |w| - 1] && s[i + 1] == t[i - |w|]; }
    }
  }

  lemma {:induction false} JoinWordsTidy(s: string)
    ensures Tidy(Join(" ", Words(s)))
    ensures Words(s) != [] ==> Join(" ", Words(s)) != "" && !IsSpace(Join(" ", Words(s))[0])
    ensures IsLowered(s) ==> IsLowered(Join(" ", Words(s)))
    decreases |s|
  {
    if s != "" {
      if IsSpace(s[0]) {
        JoinWordsTidy(s[1..]);
      } else {
        var w, rest := FirstWord(s), Words(s[|FirstWord(s)|..]);
        JoinWordsTidy(s[|w|..]);
        if rest != [] {
          TidyConcat(w, Join(" ", rest));
          assert ([w] + rest)[1..] == rest;
        }
      }
    }
  }

  lemma {:induction false} TidyJoinWords(s: string)
    requires Tidy(s)
    ensures Join(" ", Words(s)) == s
    ensures s != "" ==> Words(s) != []
    decreases |s|
  {
    if s != "" {
      var w := FirstWord(s);
      if |w| < |s| {
        assert s[|w|] == ' ';
        var t := s[|w| + 1..];
        assert s[|w|..][1..] == t;
        TidyJoinWords(t);
        assert ([w] + Words(t))[1..] == Words(t);
        assert s == w + " " + t;
      } else {
        assert s[|w|..] == "";
      }
    }
  }

  /** A part of a tidy text that neither starts nor ends with a space is tidy. */
  lemma TidySlice(s: string, a: nat, b: nat)
    requires Tidy(s) && IsLowered(s) && a <= b <= |s|
    requires a < b ==> !IsPunctuation(s[a]) && !IsPunctuation(s[b - 1])
    ensures Tidy(s[a..b]) && IsLowered(s[a..b])
  {
    var t := s[a..b];
    forall i | 0 <= i < |t| && IsSpace(t[i])
      ensures t[i] == ' ' && 0 < i < |t| - 1 && !IsSpace(t[i + 1])
    {
      assert t[i] == s[a + i];
    }
  }

  lemma StrippedShape(s: string)
    requires Tidy(s) && IsLowered(s)
    ensures Tidy(StripBy(s, IsPunctuation)) && IsLowered(StripBy(s, IsPunctuation))
    ensures TrimmedBy(StripBy(s, IsPunctuation), IsPunctuation)
  {
    var a, b := StripByCut(s, IsPunctuation);
    StripByTrims(s, IsPunctuation);
    var t := StripBy(s, IsPunctuation);
    if a < b {
      assert t[0] == s[a] && t[|t| - 1] == s[b - 1];
      assert !IsPunctuation(s[a]) && !IsPunctuation(s[b - 1]);
    }
    TidySlice(s, a, b);
  }

  lemma NormalizedShape(value: string)
    ensures Tidy(NormalizeKey(value)) && IsLowered(NormalizeKey(value))
    ensures TrimmedBy(NormalizeKey(value), IsPunctuation)
  {
    JoinWordsTidy(Lower(value));
    StrippedShape(Join(" ", Words(Lower(value))));
  }

  lemma NormalizedFixed(key: string)
    requires Tidy(key) && IsLowered(key) && TrimmedBy(key, IsPunctuation)
    ensures NormalizeKey(key) == key
  {
    LoweredStays(key);
    TidyJoinWords(key);
    StripByTrims(key, IsPunctuation);
  }

  lemma NormalizedFacts(value: string)
    ensures IsLowered(NormalizeKey(value))
    ensures NormalizeKey(NormalizeKey(value)) == NormalizeKey(value)
  {
    NormalizedShape(value);
    NormalizedFixed(NormalizeKey(value));
  }

  /** Re-reading a stored key never moves it: `normalize_key` is idempotent. */
  lemma NormalizeKeyIdempotent(value: string)
    ensures NormalizeKey(NormalizeKey(value)) == NormalizeKey(value)
  {
    NormalizedFacts(value);
  }

  // ------------------------------------------------ identifiers are unambiguous

  function FirstMark(s: string, mark: char -> bool): nat {
    if s == "" || mark(s[0]) then 0 else 1 + FirstMark(s[1..], mark)
  }

  lemma {:induction false} FirstMarkAt(a: string, x: string, mark: char -> bool)
    requires forall c :: c in a ==> !mark(c)
    requires x != "" && mark(x[0])
    ensures FirstMark(a + x, mark) == |a|
  {
    if a != "" {
      FirstMarkAt(a[1..], x, mark);
      assert (a + x)[1..] == a[1..] + x;
    }
  }

  /** Two ways of cutting one text just before its first `mark` agree. */
  lemma CutIsUnique(a: string, x: string, b: string, y: string, mark: char -> bool)
    requires a + x == b + y
    requires forall c :: c in a ==> !mark(c)
    requires forall c :: c in b ==> !mark(c)
    requires x != "" && mark(x[0]) && y != "" && mark(y[0])
    ensures a == b && x == y
  {
    FirstMarkAt(a, x, mark);
    FirstMarkAt(b, y, mark);
    assert a == (a + x)[..|a|] && b == (b + y)[..|b|];
    assert x == (a + x)[|a|..] && y == (b + y)[|b|..];
  }

  lemma ColonCut(l: string, x: string, m: string, y: string)
    requires ':' !in l && ':' !in m
    requires l + ":" + x == m + ":" + y
    ensures l == m && x == y
  {
    var u, v := ":" + x, ":" + y;
    assert l + ":" + x == l + u && m + ":" + y == m + v;
    CutIsUnique(l, u, m, v, c => c == ':');
    assert x == u[1..] && y == v[1..];
  }

  /** A node's uid determines its label and key. */
  lemma NodeUidInjective(v: Vocabulary, m: GraphNode, n: GraphNode)
    requires v.WellFormed() && m.Valid(v) && n.Valid(v) && m.uid == n.uid
    ensures m.nodeLabel == n.nodeLabel && m.key == n.key
  {
    ColonCut(m.nodeLabel, m.key, n.nodeLabel, n.key);
  }

  lemma DropSuffix(a: string, b: string, suffix: string)
    requires a + suffix == b + suffix
    ensures a == b
  {
    assert |a + suffix| == |b + suffix|;
    assert a == (a + suffix)[..|a|] && b == (b + suffix)[..|b|];
  }

  /** What follows a label and a colon in an edge's uid can be taken apart again. */
  lemma EdgeTailUnique(k: string, t: string, u: string, k': string, t': string, u': string)
    requires IsLowered(k) && IsLowered(k')
    requires t != "" && IsUpper(t[0]) && ']' !in t
    requires t' != "" && IsUpper(t'[0]) && ']' !in t'
    requires (k + "-[") + (t + ("]->" + u)) == (k' + "-[") + (t' + ("]->" + u'))
    ensures k == k' && t == t' && u == u'
  {
    CutIsUnique(k + "-[", t + ("]->" + u), k' + "-[", t' + ("]->" + u'), IsUpper);
    DropSuffix(k, k', "-[");
    CutIsUnique(t, "]->" + u, t', "]->" + u', c => c == ']');
    assert u == ("]->" + u)[3..] && u' == ("]->" + u')[3..];
  }

  lemma EdgeUidParts(l: string, k: string, t: string, u: string)
    ensures (l + ":" + k) + "-[" + t + "]->" + u == l + ":" + ((k + "-[") + (t + ("]->" + u)))
  {
  }

  /** An edge's uid determines its type and both endpoints, although keys may
      themselves contain the separators `-[` and `]->`: keys hold no capital
      letter and every relationship type starts with one. */
  lemma EdgeUidInjective(v: Vocabulary, e: GraphRelationship, f: GraphRelationship)
    requires v.WellFormed() && e.Valid(v) && f.Valid(v) && e.uid == f.uid
    ensures e.kind == f.kind && e.start.uid == f.start.uid && e.end.uid == f.end.uid
  {
    EdgeUidParts(e.start.nodeLabel, e.start.key, e.kind, e.end.uid);
    EdgeUidParts(f.start.nodeLabel, f.start.key, f.kind, f.end.uid);
    ColonCut(e.start.nodeLabel, (e.start.key + "-[") + (e.kind + ("]->" + e.end.uid)),
             f.start.nodeLabel, (f.start.key + "-[") + (f.kind + ("]->" + f.end.uid)));
    EdgeTailUnique(e.start.key, e.kind, e.end.uid, f.start.key, f.kind, f.end.uid);
  }
}
