/** Job filters: the predicate the Redis driver evaluates, and LIKE as the SQL drivers search with it. */
module JobFilter {
  import opened Types

  datatype Filter = Filter(
    states: seq<State>,
    queues: seq<string>,
    kinds: seq<string>,
    tags: seq<string>,
    search: string,
    limit: int,
    offset: int,
    orderBy: string,
    order: string)

  /** The text a state is stored as. */
  function StateName(s: State): string {
    match s
    case Pending => "pending"
    case Scheduled => "scheduled"
    case Available => "available"
    case Running => "running"
    case Completed => "completed"
    case Retryable => "retryable"
    case Failed => "failed"
    case Cancelled => "cancelled"
  }

  /** The state that a stored text stands for, if it is one. */
  function StateOf(name: string): Option<State> {
    match name
    case "available" => Some(Available)
    case "scheduled" => Some(Scheduled)
    case "running" => Some(Running)
    case "completed" => Some(Completed)
    case "failed" => Some(Failed)
    case "retryable" => Some(Retryable)
    case "cancelled" => Some(Cancelled)
    case "pending" => Some(Pending)
    case _ => None
  }

  lemma NamesAreRead(s: State, name: string)
    ensures StateOf(name) == Some(s) <==> name == StateName(s)
  {}

  lemma StateNamesDiffer(a: State, b: State)
    ensures StateName(a) == StateName(b) <==> a == b
  {
    assert StateName(a) == StateName(b) ==>
        |StateName(a)| == |StateName(b)| && StateName(a)[0] == StateName(b)[0] && StateName(a)[2] == StateName(b)[2];
  }

  /** Case folding, on ASCII letters. */
  function Fold(c: char): char {
    if 'A' <= c <= 'Z' then ((c as int) - ('A' as int) + ('a' as int)) as char else c
  }

  /** Two characters fold alike exactly if they are the same or the two cases of one letter. */
  lemma FoldIs(a: char, b: char)
    ensures Fold(a) == Fold(b) <==> a == b || OtherCase(a, b) || OtherCase(b, a)
  {}

  /** An ASCII capital and its small letter. */
  predicate OtherCase(a: char, b: char) {
    'A' <= a <= 'Z' && 'a' <= b <= 'z' && a as int + 32 == b as int
  }

  function Lower(s: string): (r: string)
    ensures |r| == |s| && forall k :: 0 <= k < |s| ==> r[k] == Fold(s[k])
  {
    seq(|s|, k requires 0 <= k < |s| => Fold(s[k]))
  }

  predicate OccursAt(s: string, part: string, i: nat) {
    i + |part| <= |s| && s[i..i + |part|] == part
  }

  predicate Contains(s: string, part: string) {
    exists i :: 0 <= i <= |s| && OccursAt(s, part, i)
  }

  /** The in-memory filter of the Redis driver. */
  predicate Matches(row: Row, f: Filter) {
    && (f.states != [] ==> row.state in f.states)
    && (f.queues != [] ==> row.spec.queue in f.queues)
    && (f.kinds != [] ==> row.spec.kind in f.kinds)
    && (forall k :: 0 <= k < |f.tags| ==> f.tags[k] in row.spec.tags)
    && (|| f.search == ""
        || Contains(Lower(row.spec.kind), Lower(f.search))
        || Contains(Lower(row.spec.uuid), Lower(f.search)))
  }

  /** Changing the case of a letter of the search makes no difference. */
  lemma CaseDoesNotMatter(row: Row, f: Filter, k: nat, c: char)
    requires k < |f.search| && (OtherCase(f.search[k], c) || OtherCase(c, f.search[k]))
    ensures Matches(row, f.(search := f.search[k := c])) <==> Matches(row, f)
  {
    FoldIs(f.search[k], c);
    assert Lower(f.search[k := c]) == Lower(f.search);
  }

  /** A one-letter search finds the letter in either case, and nothing else. */
  lemma FindsLetters(s: string, c: char)
    ensures Contains(Lower(s), Lower([c])) <==>
              exists k :: 0 <= k < |s| && (s[k] == c || OtherCase(s[k], c) || OtherCase(c, s[k]))
  {
    forall k | 0 <= k < |s|
      ensures OccursAt(Lower(s), Lower([c]), k) <==> s[k] == c || OtherCase(s[k], c) || OtherCase(c, s[k])
    {
      FoldIs(s[k], c);
      assert Lower(s)[k..k + 1] == [Fold(s[k])] && Lower([c]) == [Fold(c)];
    }
  }

  // ---------------------------------------------------------------- LIKE

  /** Case-insensitive LIKE; `esc` says whether backslash escapes (Postgres, MySQL) or not (SQLite). */
  predicate Like(p: string, s: string, esc: bool)
    decreases |p| + |s|
  {
    if p == "" then s == ""
    else if p[0] == '%' then Like(p[1..], s, esc) || (s != "" && Like(p, s[1..], esc))
    else if p[0] == '\\' && esc then |p| > 1 && s != "" && Fold(p[1]) == Fold(s[0]) && Like(p[2..], s[1..], esc)
    else s != "" && (p[0] == '_' || Fold(p[0]) == Fold(s[0])) && Like(p[1..], s[1..], esc)
  }

  predicate Meta(c: char, esc: bool) {
    c == '%' || c == '_' || (c == '\\' && esc)
  }

  predicate Plain(search: string, esc: bool) {
    forall k :: 0 <= k < |search| ==> !Meta(search[k], esc)
  }

  lemma {:induction false} AnythingMatches(s: string, esc: bool)
    ensures Like("%", s, esc)
    decreases |s|
  {
    assert "%"[1..] == "";
    if s != "" { AnythingMatches(s[1..], esc); }
  }

  lemma LowerStep(s: string)
    requires s != ""
    ensures Lower(s) == [Fold(s[0])] + Lower(s[1..])
  {}

  /** A plain text followed by % matches what starts with it. */
  lemma {:induction false} LikePrefix(search: string, s: string, esc: bool)
    requires Plain(search, esc)
    ensures Like(search + "%", s, esc) <==> |search| <= |s| && Lower(s[..|search|]) == Lower(search)
    decreases |search|
  {
    if search == "" {
      assert search + "%" == "%";
      AnythingMatches(s, esc);
    } else {
      assert !Meta(search[0], esc);
      assert (search + "%")[1..] == search[1..] + "%";
      if s != "" {
        LikePrefix(search[1..], s[1..], esc);
        if |search| <= |s| {
          LowerStep(s[..|search|]);
          LowerStep(search);
          assert s[1..][..|search| - 1] == s[..|search|][1..];
        }
      }
    }
  }

  /** A leading % matches at any position. */
  lemma {:induction false} LikeAnywhere(p: string, s: string, esc: bool)
    ensures Like("%" + p, s, esc) <==> exists i :: 0 <= i <= |s| && Like(p, s[i..], esc)
    decreases |s|
  {
    assert ("%" + p)[1..] == p;
    assert s[0..] == s;
    if s != "" {
      LikeAnywhere(p, s[1..], esc);
      if Like("%" + p, s[1..], esc) {
        var i :| 0 <= i <= |s[1..]| && Like(p, s[1..][i..], esc);
        assert s[1..][i..] == s[i + 1..];
      }
      if i :| 0 < i <= |s| && Like(p, s[i..], esc) {
        assert s[1..][i - 1..] == s[i..];
      }
    }
  }

  lemma LikeAt(search: string, s: string, i: nat, esc: bool)
    requires Plain(search, esc) && i <= |s|
    ensures Like(search + "%", s[i..], esc) <==> OccursAt(Lower(s), Lower(search), i)
  {
    hide Like, Plain;
    var n := |search|;
    LikePrefix(search, s[i..], esc);
    if i + n <= |s| {
      assert s[i..][..n] == s[i..i + n];
      assert Lower(s[i..i + n]) == Lower(s)[i..i + n];
    }
  }

  /** For a plain text, `LIKE '%text%'` is case-insensitive containment. */
  lemma LikeIsContains(search: string, s: string, esc: bool)
    requires Plain(search, esc)
    ensures Like("%" + search + "%", s, esc) <==> Contains(Lower(s), Lower(search))
  {
    hide Like, Plain, OccursAt;
    assert "%" + search + "%" == "%" + (search + "%");
    LikeAnywhere(search + "%", s, esc);
    forall i | 0 <= i <= |s|
      ensures Like(search + "%", s[i..], esc) <==> OccursAt(Lower(s), Lower(search), i)
    {
      LikeAt(search, s, i, esc);
    }
    if Like("%" + search + "%", s, esc) {
      var i :| 0 <= i <= |s| && Like(search + "%", s[i..], esc);
      assert OccursAt(Lower(s), Lower(search), i);
    }
    if i :| 0 <= i <= |Lower(s)| && OccursAt(Lower(s), Lower(search), i) {
      assert Like(search + "%", s[i..], esc);
    }
  }

  /** A text that the pattern matches: wildcards for nothing or for an x, escapes for what they escape. */
  function Witness(p: string, esc: bool): string
    decreases |p|
  {
    if p == "" then ""
    else if p[0] == '%' then Witness(p[1..], esc)
    else if p[0] == '\\' && esc then (if |p| > 1 then [p[1]] + Witness(p[2..], esc) else "")
    else if p[0] == '_' then ['x'] + Witness(p[1..], esc)
    else [p[0]] + Witness(p[1..], esc)
  }

  lemma {:induction false} WitnessMatches(p: string, esc: bool)
    requires p != "" ==> Last(p) != '\\'
    ensures Like(p, Witness(p, esc), esc)
    decreases |p|
  {
    if p != "" {
      if p[0] == '\\' && esc {
        WitnessMatches(p[2..], esc);
        assert Witness(p, esc)[1..] == Witness(p[2..], esc);
      } else {
        WitnessMatches(p[1..], esc);
        if p[0] != '%' {
          assert Witness(p, esc)[1..] == Witness(p[1..], esc);
        }
      }
    }
  }

  /** For a text with a metacharacter the witness is shorter than the text or differs from it somewhere. */
  lemma {:induction false} WitnessDiffers(q: string, esc: bool)
    requires !Plain(q, esc)
    ensures var w := Witness(q + "%", esc);
            |w| < |q| || (|w| == |q| && exists k :: 0 <= k < |q| && Fold(w[k]) != Fold(q[k]))
    decreases |q|
  {
    var w := Witness(q + "%", esc);
    assert (q + "%")[1..] == q[1..] + "%";
    if q[0] == '%' {
      WitnessIsNoLonger(q[1..], esc);
    } else if q[0] == '\\' && esc {
      if |q| == 1 {
        assert q + "%" == "\\%";
        assert (q + "%")[2..] == "";
        assert w == "%" && Fold(w[0]) != Fold(q[0]);
      } else {
        assert (q + "%")[2..] == q[2..] + "%";
        WitnessIsNoLonger(q[2..], esc);
      }
    } else if q[0] == '_' {
      WitnessIsNoLonger(q[1..], esc);
      assert Fold(w[0]) != Fold(q[0]);
    } else {
      var k :| 0 <= k < |q| && Meta(q[k], esc);
      assert Meta(q[1..][k - 1], esc);
      WitnessDiffers(q[1..], esc);
      var w' := Witness(q[1..] + "%", esc);
      assert w == [q[0]] + w';
      if |w'| == |q[1..]| {
        var j :| 0 <= j < |q[1..]| && Fold(w'[j]) != Fold(q[1..][j]);
        assert Fold(w[j + 1]) != Fold(q[j + 1]);
      }
    }
  }

  lemma {:induction false} WitnessIsNoLonger(q: string, esc: bool)
    ensures |Witness(q + "%", esc)| <= |q|
    decreases |q|
  {
    if q == "" {
      assert q + "%" == "%" && "%"[1..] == "";
    } else {
      assert (q + "%")[1..] == q[1..] + "%";
      WitnessIsNoLonger(q[1..], esc);
      if |q| > 1 {
        assert (q + "%")[2..] == q[2..] + "%";
        WitnessIsNoLonger(q[2..], esc);
      } else {
        assert (q + "%")[2..] == "";
      }
    }
  }

  lemma NotContained(w: string, q: string)
    requires |w| < |q| || (|w| == |q| && exists k :: 0 <= k < |q| && Fold(w[k]) != Fold(q[k]))
    ensures !Contains(Lower(w), Lower(q))
  {
    forall i | 0 <= i <= |Lower(w)|
      ensures !OccursAt(Lower(w), Lower(q), i)
    {
      if |w| == |q| && i == 0 {
        var k :| 0 <= k < |q| && Fold(w[k]) != Fold(q[k]);
        assert Lower(w)[i..i + |Lower(q)|][k] == Fold(w[k]);
      }
    }
  }

  /** For a text with a metacharacter, a text that LIKE finds it in although it is not contained in it. */
  ghost function OnlyLike(search: string, esc: bool): (w: string)
    requires !Plain(search, esc)
    ensures Like("%" + search + "%", w, esc) && !Contains(Lower(w), Lower(search))
  {
    var p, w := "%" + search + "%", Witness(search + "%", esc);
    assert p == "%" + (search + "%") && p[1..] == search + "%";
    WitnessMatches(p, esc);
    assert Witness(p, esc) == w;
    WitnessDiffers(search, esc);
    NotContained(w, search);
    w
  }

  /** The SQL search means what the Redis search means exactly for texts without LIKE metacharacters. */
  lemma SearchAgreesIff(search: string, esc: bool)
    ensures (forall s :: Like("%" + search + "%", s, esc) <==> Contains(Lower(s), Lower(search))) <==>
              Plain(search, esc)
  {
    if Plain(search, esc) {
      forall s
        ensures Like("%" + search + "%", s, esc) <==> Contains(Lower(s), Lower(search))
      {
        LikeIsContains(search, s, esc);
      }
    } else {
      var w := OnlyLike(search, esc);
    }
  }
}
