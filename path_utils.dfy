/** The route matcher of src/path_utils.rs: a request path such as
    `/chats/5/messages?x=1` against a pattern such as
    `/chats/{chat_id}/messages`, giving the placeholder bindings or nothing. */
module PathUtils {
  import opened Wrappers
  import opened Strings

  /** A segment or query value of the form `{name}`: it starts with `{` and
      ends with `}`, which takes two characters at least. */
  predicate IsPlaceholder(s: string)
  {
    |s| >= 2 && s[0] == '{' && s[|s| - 1] == '}'
  }

  function PlaceholderName(s: string): string
    requires IsPlaceholder(s)
  {
    s[1..|s| - 1]
  }

  // ---------------------------------------------------------------------------
  // The two halves of a path: `split("?")`, of which pieces 0 and 1 are used

  function PathPart(s: string): string
  {
    Split(s, '?')[0]
  }

  function QueryPart(s: string): Option<string>
  {
    var ps := Split(s, '?');
    if |ps| >= 2 then Some(ps[1]) else None
  }

  function Segments(s: string): seq<string>
  {
    Split(s, '/')
  }

  /** Only the first two `?`-separated pieces are consulted: a further `?` and
      what follows it are never looked at. */
  lemma OnlyFirstTwoPieces(a: string, q: string, rest: string)
    requires '?' !in a && '?' !in q
    ensures PathPart(a + "?" + q + "?" + rest) == a
    ensures QueryPart(a + "?" + q + "?" + rest) == Some(q)
  {
    var s := a + "?" + q + "?" + rest;
    assert s == a + ['?'] + (q + ['?'] + rest);
    SplitAfter(a, '?', q + ['?'] + rest);
    SplitAfter(q, '?', rest);
  }

  /** A path without `?` has no query part. */
  lemma NoQueryPart(a: string)
    requires '?' !in a
    ensures PathPart(a) == a && QueryPart(a) == None
  {
    SplitNone(a, '?');
  }

  // ---------------------------------------------------------------------------
  // match_part_path

  /** Same number of segments, and every literal pattern segment equal to the
      path segment beside it. */
  predicate SegmentsMatch(path: seq<string>, pat: seq<string>)
  {
    && |path| == |pat|
    && forall i :: 0 <= i < |pat| && !IsPlaceholder(pat[i]) ==> path[i] == pat[i]
  }

  /** The map after inserting, left to right, each placeholder's name with the
      path segment beside it. */
  function BindSegments(vars: map<string, string>, path: seq<string>, pat: seq<string>): map<string, string>
    requires |path| == |pat|
    decreases |pat|
  {
    if pat == [] then vars
    else
      var n := |pat| - 1;
      var m := BindSegments(vars, path[..n], pat[..n]);
      if IsPlaceholder(pat[n]) then m[PlaceholderName(pat[n]) := path[n]] else m
  }

  /** `match_part_path`: the segments pair up one to one; a placeholder binds,
      a literal must be equal. */
  method MatchPartPath(path: string, pat: string, vars: map<string, string>) returns (r: Option<map<string, string>>)
    ensures r.Some? <==> SegmentsMatch(Segments(path), Segments(pat))
    ensures r.Some? ==> r.value == BindSegments(vars, Segments(path), Segments(pat))
  {
    var ps := Split(path, '/');
    var qs := Split(pat, '/');
    if |ps| != |qs| {
      return None;
    }
    var out := vars;
    for i := 0 to |ps|
      invariant forall j :: 0 <= j < i && !IsPlaceholder(qs[j]) ==> ps[j] == qs[j]
      invariant out == BindSegments(vars, ps[..i], qs[..i])
    {
      assert ps[..i + 1][..i] == ps[..i] && qs[..i + 1][..i] == qs[..i];
      if IsPlaceholder(qs[i]) {
        out := out[PlaceholderName(qs[i]) := ps[i]];
      } else if ps[i] != qs[i] {
        return None;
      }
    }
    assert ps[..|ps|] == ps && qs[..|qs|] == qs;
    return Some(out);
  }

  /** A placeholder binds its name to the path segment beside it, unless a
      later placeholder of the same name overrides it. */
  lemma {:induction false} BindSegmentsAt(vars: map<string, string>, path: seq<string>, pat: seq<string>, i: nat)
    requires |path| == |pat| && i < |pat| && IsPlaceholder(pat[i])
    requires forall j :: i < j < |pat| && IsPlaceholder(pat[j]) ==> PlaceholderName(pat[j]) != PlaceholderName(pat[i])
    ensures PlaceholderName(pat[i]) in BindSegments(vars, path, pat)
    ensures BindSegments(vars, path, pat)[PlaceholderName(pat[i])] == path[i]
    decreases |pat|
  {
    var n := |pat| - 1;
    if i < n {
      BindSegmentsAt(vars, path[..n], pat[..n], i);
    }
  }

  /** A name no placeholder carries keeps the value it had, or stays absent. */
  lemma {:induction false} BindSegmentsOther(vars: map<string, string>, path: seq<string>, pat: seq<string>, name: string)
    requires |path| == |pat|
    requires forall j :: 0 <= j < |pat| && IsPlaceholder(pat[j]) ==> PlaceholderName(pat[j]) != name
    ensures name in BindSegments(vars, path, pat) <==> name in vars
    ensures name in vars ==> BindSegments(vars, path, pat)[name] == vars[name]
    decreases |pat|
  {
    if pat != [] {
      var n := |pat| - 1;
      BindSegmentsOther(vars, path[..n], pat[..n], name);
    }
  }

  // ---------------------------------------------------------------------------
  // parse_query_params

  /** Every `&`-separated piece holds an `=`: otherwise `param[1]` panics. */
  predicate AllPairs(pieces: seq<string>)
  {
    forall k :: 0 <= k < |pieces| ==> '=' in pieces[k]
  }

  predicate WellFormedQuery(q: string)
  {
    AllPairs(Split(q, '&'))
  }

  predicate QueryOk(params: Option<string>)
  {
    params.Some? ==> WellFormedQuery(params.value)
  }

  /** The key of a piece: the text before its first `=`. */
  function PieceKey(p: string): string
  {
    Split(p, '=')[0]
  }

  /** The value of a piece: the text between its first and second `=`. */
  function PieceValue(p: string): string
    requires '=' in p
  {
    SplitHasTwo(p, '=');
    Split(p, '=')[1]
  }

  /** The map the pieces give when inserted in order. */
  function QueryMap(pieces: seq<string>): map<string, string>
    requires AllPairs(pieces)
    decreases |pieces|
  {
    if pieces == [] then map[]
    else
      var n := |pieces| - 1;
      QueryMap(pieces[..n])[PieceKey(pieces[n]) := PieceValue(pieces[n])]
  }

  function QueryOf(params: Option<string>): map<string, string>
    requires QueryOk(params)
  {
    if params.None? then map[] else QueryMap(Split(params.value, '&'))
  }

  /** `parse_query_params`. */
  method ParseQueryParams(params: Option<string>) returns (q: map<string, string>)
    requires QueryOk(params)
    ensures q == QueryOf(params)
  {
    q := map[];
    if params.Some? {
      var pieces := Split(params.value, '&');
      for i := 0 to |pieces|
        invariant q == QueryMap(pieces[..i])
      {
        assert pieces[..i + 1][..i] == pieces[..i];
        var param := Split(pieces[i], '=');
        SplitHasTwo(pieces[i], '=');
        q := q[param[0] := param[1]];
      }
      assert pieces[..|pieces|] == pieces;
    }
  }

  /** A key takes the value of the last piece that carries it. */
  lemma {:induction false} QueryMapAt(pieces: seq<string>, i: nat)
    requires AllPairs(pieces) && i < |pieces|
    requires forall j :: i < j < |pieces| ==> PieceKey(pieces[j]) != PieceKey(pieces[i])
    ensures PieceKey(pieces[i]) in QueryMap(pieces)
    ensures QueryMap(pieces)[PieceKey(pieces[i])] == PieceValue(pieces[i])
    decreases |pieces|
  {
    var n := |pieces| - 1;
    if i < n {
      QueryMapAt(pieces[..n], i);
    }
  }

  /** A key no piece carries is absent. */
  lemma {:induction false} QueryMapAbsent(pieces: seq<string>, key: string)
    requires AllPairs(pieces)
    requires forall j :: 0 <= j < |pieces| ==> PieceKey(pieces[j]) != key
    ensures key !in QueryMap(pieces)
    decreases |pieces|
  {
    if pieces != [] {
      QueryMapAbsent(pieces[..|pieces| - 1], key);
    }
  }

  /** `k=v` reads back as key `k` and value `v`. */
  lemma PieceOfPair(k: string, v: string)
    requires '=' !in k && '=' !in v
    ensures '=' in k + "=" + v
    ensures PieceKey(k + "=" + v) == k && PieceValue(k + "=" + v) == v
  {
    assert (k + "=" + v)[|k|] == '=';
    SplitAfter(k, '=', v);
    SplitNone(v, '=');
  }

  /** Text after a second `=` is dropped: `a=b=c` gives `a` the value `b`. */
  lemma SecondEqualsIgnored(k: string, v: string, rest: string)
    requires '=' !in k && '=' !in v
    ensures '=' in k + "=" + v + "=" + rest
    ensures PieceKey(k + "=" + v + "=" + rest) == k
    ensures PieceValue(k + "=" + v + "=" + rest) == v
  {
    var s := k + "=" + v + "=" + rest;
    assert s == k + ['='] + (v + ['='] + rest);
    assert s[|k|] == '=';
    SplitAfter(k, '=', v + ['='] + rest);
    SplitAfter(v, '=', rest);
  }

  // ---------------------------------------------------------------------------
  // Queries as text

  function PairText(p: (string, string)): string
  {
    p.0 + "=" + p.1
  }

  function PairTexts(pairs: seq<(string, string)>): (ps: seq<string>)
    ensures |ps| == |pairs|
    ensures forall k :: 0 <= k < |pairs| ==> ps[k] == PairText(pairs[k])
  {
    if pairs == [] then [] else [PairText(pairs[0])] + PairTexts(pairs[1..])
  }

  /** Keys and values free of the two separators. */
  predicate PlainPair(p: (string, string))
  {
    '&' !in p.0 && '=' !in p.0 && '&' !in p.1 && '=' !in p.1
  }

  /** The map a list of pairs denotes when a later key replaces an earlier one. */
  function PairsMap(pairs: seq<(string, string)>): map<string, string>
  {
    if pairs == [] then map[]
    else
      var last := pairs[|pairs| - 1];
      PairsMap(pairs[..|pairs| - 1])[last.0 := last.1]
  }

  /** Parsing the text of a list of plain pairs gives the map of the pairs. */
  lemma QueryRoundTrip(pairs: seq<(string, string)>)
    requires pairs != []
    requires forall k :: 0 <= k < |pairs| ==> PlainPair(pairs[k])
    ensures WellFormedQuery(Join(PairTexts(pairs), '&'))
    ensures QueryOf(Some(Join(PairTexts(pairs), '&'))) == PairsMap(pairs)
  {
    var texts := PairTexts(pairs);
    forall k | 0 <= k < |texts|
      ensures '&' !in texts[k] && '=' in texts[k]
    {
      PieceOfPair(pairs[k].0, pairs[k].1);
    }
    SplitJoin(texts, '&');
    PairsQueryMap(pairs);
  }

  lemma {:induction false} PairsQueryMap(pairs: seq<(string, string)>)
    requires forall k :: 0 <= k < |pairs| ==> PlainPair(pairs[k])
    ensures AllPairs(PairTexts(pairs))
    ensures QueryMap(PairTexts(pairs)) == PairsMap(pairs)
    decreases |pairs|
  {
    PairTextsPairs(pairs);
    if pairs != [] {
      var n := |pairs| - 1;
      PairsQueryMap(pairs[..n]);
      PairTextsPrefix(pairs, n);
      PieceOfPair(pairs[n].0, pairs[n].1);
    }
  }

  lemma PairTextsPairs(pairs: seq<(string, string)>)
    requires forall k :: 0 <= k < |pairs| ==> PlainPair(pairs[k])
    ensures AllPairs(PairTexts(pairs))
  {
    forall k | 0 <= k < |pairs|
      ensures '=' in PairTexts(pairs)[k]
    {
      PieceOfPair(pairs[k].0, pairs[k].1);
    }
  }

  lemma PairTextsPrefix(pairs: seq<(string, string)>, n: nat)
    requires n <= |pairs|
    ensures PairTexts(pairs)[..n] == PairTexts(pairs[..n])
  {
  }

  // ---------------------------------------------------------------------------
  // match_part_params

  /** A pattern entry is met: a placeholder needs the key to be present, a
      literal needs the key to carry exactly that value. */
  predicate EntryOk(pathQ: map<string, string>, key: string, val: string)
  {
    if IsPlaceholder(val) then key in pathQ else key in pathQ && pathQ[key] == val
  }

  predicate ParamsOk(pathQ: map<string, string>, patQ: map<string, string>)
  {
    forall k :: k in patQ ==> EntryOk(pathQ, k, patQ[k])
  }

  /** `name` is the placeholder name of the pattern value of some key in `keys`. */
  predicate BoundBy(patQ: map<string, string>, keys: set<string>, name: string)
  {
    exists k :: k in keys && k in patQ && IsPlaceholder(patQ[k]) && PlaceholderName(patQ[k]) == name
  }

  /** `r` is `vars` with the placeholders of the pattern keys in `keys`
      inserted, taking the path's value for the key: where two keys share a
      placeholder name, which of them wins depends on the order the keys are
      visited in, and that order is unspecified. */
  ghost predicate Bindings(vars: map<string, string>, pathQ: map<string, string>, patQ: map<string, string>,
                     keys: set<string>, r: map<string, string>)
  {
    && (forall name :: name in r <==> name in vars || BoundBy(patQ, keys, name))
    && (forall name :: name in r && !BoundBy(patQ, keys, name) ==> r[name] == vars[name])
    && (forall name :: BoundBy(patQ, keys, name) ==>
          exists k :: && k in keys && k in patQ && IsPlaceholder(patQ[k])
                      && PlaceholderName(patQ[k]) == name && k in pathQ && r[name] == pathQ[k])
  }

  /** The state of the visit of the pattern entries: the keys in `done` are
      met and their placeholders are in `out`; those in `todo` are left. */
  ghost predicate Visited(vars: map<string, string>, pathQ: map<string, string>, patQ: map<string, string>,
                          todo: set<string>, done: set<string>, out: map<string, string>)
  {
    && todo + done == patQ.Keys && todo !! done
    && (forall k :: k in done ==> EntryOk(pathQ, k, patQ[k]))
    && Bindings(vars, pathQ, patQ, done, out)
  }

  /** `match_part_params`: each pattern entry, in some order, either binds,
      is met, or ends the match. */
  method MatchPartParams(pathParams: Option<string>, patParams: Option<string>, vars: map<string, string>)
    returns (r: Option<map<string, string>>)
    requires QueryOk(pathParams) && QueryOk(patParams)
    ensures r.Some? <==> ParamsOk(QueryOf(pathParams), QueryOf(patParams))
    ensures r.Some? ==> Bindings(vars, QueryOf(pathParams), QueryOf(patParams), QueryOf(patParams).Keys, r.value)
  {
    var pathQ := ParseQueryParams(pathParams);
    var patQ := ParseQueryParams(patParams);
    var todo := patQ.Keys;
    ghost var done: set<string> := {};
    var out := vars;
    VisitStart(vars, pathQ, patQ);
    while todo != {}
      invariant Visited(vars, pathQ, patQ, todo, done, out)
      decreases |todo|
    {
      var k :| k in todo;
      var v := patQ[k];
      if IsPlaceholder(v) && k in pathQ {
        VisitBind(vars, pathQ, patQ, todo, done, out, k);
        out := out[PlaceholderName(v) := pathQ[k]];
      } else if k !in pathQ || pathQ[k] != v {
        VisitFail(vars, pathQ, patQ, todo, done, out, k);
        return None;
      } else {
        VisitSkip(vars, pathQ, patQ, todo, done, out, k);
      }
      todo := todo - {k};
      done := done + {k};
    }
    VisitEnd(vars, pathQ, patQ, done, out);
    return Some(out);
  }

  lemma VisitStart(vars: map<string, string>, pathQ: map<string, string>, patQ: map<string, string>)
    ensures Visited(vars, pathQ, patQ, patQ.Keys, {}, vars)
  {
  }

  lemma VisitBind(vars: map<string, string>, pathQ: map<string, string>, patQ: map<string, string>,
                  todo: set<string>, done: set<string>, out: map<string, string>, k: string)
    requires Visited(vars, pathQ, patQ, todo, done, out)
    requires k in todo && IsPlaceholder(patQ[k]) && k in pathQ
    ensures Visited(vars, pathQ, patQ, todo - {k}, done + {k}, out[PlaceholderName(patQ[k]) := pathQ[k]])
  {
    BindStep(vars, pathQ, patQ, done, out, k);
  }

  lemma VisitSkip(vars: map<string, string>, pathQ: map<string, string>, patQ: map<string, string>,
                  todo: set<string>, done: set<string>, out: map<string, string>, k: string)
    requires Visited(vars, pathQ, patQ, todo, done, out)
    requires k in todo && k in pathQ && pathQ[k] == patQ[k] && !(IsPlaceholder(patQ[k]) && k in pathQ)
    ensures Visited(vars, pathQ, patQ, todo - {k}, done + {k}, out)
  {
    SkipStep(vars, pathQ, patQ, done, out, k);
  }

  lemma VisitFail(vars: map<string, string>, pathQ: map<string, string>, patQ: map<string, string>,
                  todo: set<string>, done: set<string>, out: map<string, string>, k: string)
    requires Visited(vars, pathQ, patQ, todo, done, out)
    requires k in todo && !(IsPlaceholder(patQ[k]) && k in pathQ) && (k !in pathQ || pathQ[k] != patQ[k])
    ensures !ParamsOk(pathQ, patQ)
  {
    assert !EntryOk(pathQ, k, patQ[k]);
  }

  lemma VisitEnd(vars: map<string, string>, pathQ: map<string, string>, patQ: map<string, string>,
                 done: set<string>, out: map<string, string>)
    requires Visited(vars, pathQ, patQ, {}, done, out)
    ensures ParamsOk(pathQ, patQ)
    ensures Bindings(vars, pathQ, patQ, patQ.Keys, out)
  {
    assert done == patQ.Keys;
  }

  lemma BindStep(vars: map<string, string>, pathQ: map<string, string>, patQ: map<string, string>,
                 done: set<string>, out: map<string, string>, k: string)
    requires Bindings(vars, pathQ, patQ, done, out)
    requires k in patQ && IsPlaceholder(patQ[k]) && k in pathQ
    ensures Bindings(vars, pathQ, patQ, done + {k}, out[PlaceholderName(patQ[k]) := pathQ[k]])
  {
    var name := PlaceholderName(patQ[k]);
    var out' := out[name := pathQ[k]];
    BoundByAdded(patQ, done, k);
    forall n | BoundBy(patQ, done + {k}, n)
      ensures exists k' :: && k' in done + {k} && k' in patQ && IsPlaceholder(patQ[k'])
                           && PlaceholderName(patQ[k']) == n && k' in pathQ && out'[n] == pathQ[k']
    {
      if n == name {
        assert k in done + {k} && out'[n] == pathQ[k];
      } else {
        var k' :| && k' in done && k' in patQ && IsPlaceholder(patQ[k'])
                  && PlaceholderName(patQ[k']) == n && k' in pathQ && out[n] == pathQ[k'];
        assert k' in done + {k} && out'[n] == pathQ[k'];
      }
    }
  }

  /** Visiting a placeholder key adds exactly its name to the bound names. */
  lemma BoundByAdded(patQ: map<string, string>, done: set<string>, k: string)
    requires k in patQ && IsPlaceholder(patQ[k])
    ensures forall n :: BoundBy(patQ, done + {k}, n) <==> BoundBy(patQ, done, n) || n == PlaceholderName(patQ[k])
  {
    forall n ensures BoundBy(patQ, done + {k}, n) <==> BoundBy(patQ, done, n) || n == PlaceholderName(patQ[k]) {
      if BoundBy(patQ, done + {k}, n) && n != PlaceholderName(patQ[k]) {
        var k' :| k' in done + {k} && k' in patQ && IsPlaceholder(patQ[k']) && PlaceholderName(patQ[k']) == n;
        assert k' in done;
      }
      if n == PlaceholderName(patQ[k]) {
        assert k in done + {k};
      }
      if BoundBy(patQ, done, n) {
        var k' :| k' in done && k' in patQ && IsPlaceholder(patQ[k']) && PlaceholderName(patQ[k']) == n;
        assert k' in done + {k};
      }
    }
  }

  /** Visiting a literal key binds nothing new. */
  lemma BoundBySkipped(patQ: map<string, string>, done: set<string>, k: string)
    requires k in patQ && !IsPlaceholder(patQ[k])
    ensures forall n :: BoundBy(patQ, done + {k}, n) <==> BoundBy(patQ, done, n)
  {
    forall n ensures BoundBy(patQ, done + {k}, n) <==> BoundBy(patQ, done, n) {
      if BoundBy(patQ, done + {k}, n) {
        var k' :| k' in done + {k} && k' in patQ && IsPlaceholder(patQ[k']) && PlaceholderName(patQ[k']) == n;
        assert k' in done;
      }
      if BoundBy(patQ, done, n) {
        var k' :| k' in done && k' in patQ && IsPlaceholder(patQ[k']) && PlaceholderName(patQ[k']) == n;
        assert k' in done + {k};
      }
    }
  }

  lemma SkipStep(vars: map<string, string>, pathQ: map<string, string>, patQ: map<string, string>,
                 done: set<string>, out: map<string, string>, k: string)
    requires Bindings(vars, pathQ, patQ, done, out)
    requires k in patQ && !IsPlaceholder(patQ[k])
    ensures Bindings(vars, pathQ, patQ, done + {k}, out)
  {
    BoundBySkipped(patQ, done, k);
    forall n | BoundBy(patQ, done + {k}, n)
      ensures exists k' :: && k' in done + {k} && k' in patQ && IsPlaceholder(patQ[k'])
                           && PlaceholderName(patQ[k']) == n && k' in pathQ && out[n] == pathQ[k']
    {
      var k' :| && k' in done && k' in patQ && IsPlaceholder(patQ[k'])
                && PlaceholderName(patQ[k']) == n && k' in pathQ && out[n] == pathQ[k'];
      assert k' in done + {k};
    }
  }

  /** With no query in the pattern, the bindings are those of the path part:
      the path's own query is ignored. */
  lemma BindingsWithoutPatternQuery(vars: map<string, string>, pathQ: map<string, string>, r: map<string, string>)
    requires Bindings(vars, pathQ, map[], {}, r)
    ensures r == vars
  {
    assert forall name :: !BoundBy(map[], {}, name);
    assert r.Keys == vars.Keys;
  }

  /** A placeholder name that only one pattern key carries is bound to that
      key's value in the path. */
  lemma BindingsUnique(vars: map<string, string>, pathQ: map<string, string>, patQ: map<string, string>,
                       r: map<string, string>, k: string)
    requires Bindings(vars, pathQ, patQ, patQ.Keys, r)
    requires k in patQ && IsPlaceholder(patQ[k]) && k in pathQ
    requires forall k' :: k' in patQ && k' != k && IsPlaceholder(patQ[k']) ==> PlaceholderName(patQ[k']) != PlaceholderName(patQ[k])
    ensures PlaceholderName(patQ[k]) in r && r[PlaceholderName(patQ[k])] == pathQ[k]
  {
    assert BoundBy(patQ, patQ.Keys, PlaceholderName(patQ[k]));
  }

  // ---------------------------------------------------------------------------
  // match_path

  /** `match_path`. The source's `param[1]` panics on a query piece without
      `=`; such a query is excluded where the source would read it, which is
      only after the path parts matched. */
  method MatchPath(path: string, pat: string) returns (r: Option<map<string, string>>)
    requires SegmentsMatch(Segments(PathPart(path)), Segments(PathPart(pat))) ==>
               QueryOk(QueryPart(path)) && QueryOk(QueryPart(pat))
    ensures r.Some? <==> && SegmentsMatch(Segments(PathPart(path)), Segments(PathPart(pat)))
                         && ParamsOk(QueryOf(QueryPart(path)), QueryOf(QueryPart(pat)))
    ensures r.Some? ==> Bindings(BindSegments(map[], Segments(PathPart(path)), Segments(PathPart(pat))),
                                 QueryOf(QueryPart(path)), QueryOf(QueryPart(pat)),
                                 QueryOf(QueryPart(pat)).Keys, r.value)
  {
    var splitPath := Split(path, '?');
    var splitPat := Split(pat, '?');
    var vars := MatchPartPath(splitPath[0], splitPat[0], map[]);
    if vars.None? {
      return None;
    }
    var pathParams := if |splitPath| >= 2 then Some(splitPath[1]) else None;
    var patParams := if |splitPat| >= 2 then Some(splitPat[1]) else None;
    r := MatchPartParams(pathParams, patParams, vars.value);
  }
}
