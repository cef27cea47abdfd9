/**
 The user's way filter: parsing the `--filter` argument into a list of
 conditions, and the tag predicate that selects a way when any condition holds.
 */
module Filters {
  import opened Text

  datatype Option<T> = None | Some(value: T)

  /** One condition: the way has the key, or the way has the key with exactly that value. */
  datatype Filter = Key(key: string) | KeyValue(key: string, value: string)

  /** The key looked for when no filter argument is given. */
  const DefaultKey: string := "highway"

  /**
   One comma-separated token. Its `=`-pieces are taken lazily: the first is the
   key, the second (when there is one) the value, and any further `=`-pieces are
   dropped.
   */
  function ParseToken(token: string): Filter
  {
    var pieces := Split(token, '=');
    if |pieces| == 1 then Key(pieces[0]) else KeyValue(pieces[0], pieces[1])
  }

  /** The filter list a (possibly absent) filter argument denotes. */
  function FilterList(arg: Option<string>): seq<Filter>
  {
    match arg
    case None => [Key(DefaultKey)]
    case Some(s) =>
      var tokens := Split(s, ',');
      seq(|tokens|, i requires 0 <= i < |tokens| => ParseToken(tokens[i]))
  }

  /** Builds the filter list token by token, pushing one filter per token. */
  method ParseFilterArg(arg: Option<string>) returns (filters: seq<Filter>)
    ensures filters == FilterList(arg)
    ensures |filters| >= 1
  {
    match arg {
      case None =>
        filters := [Key(DefaultKey)];
      case Some(s) =>
        var tokens := Split(s, ',');
        filters := [];
        for i := 0 to |tokens|
          invariant |filters| == i
          invariant forall j :: 0 <= j < i ==> filters[j] == ParseToken(tokens[j])
        {
          filters := filters + [ParseToken(tokens[i])];
        }
    }
  }

  /** The join of two or more pieces starts with the first two and a separator between them. */
  lemma JoinFirstTwo(pieces: seq<string>, sep: char)
    requires |pieces| >= 2
    ensures Join(pieces, sep) == pieces[0] + [sep] + pieces[1]
                                 + (if |pieces| == 2 then [] else [sep] + Join(pieces[2..], sep))
  {
    assert pieces[1..][1..] == pieces[2..];
  }

  /**
   A token without `=` is a key test on the whole token. A token with `=` is a
   key/value test: the key runs up to the first `=`, the value up to the next
   `=` or the end, and neither contains `=` (the value may be empty).
   */
  lemma ParseTokenSpec(token: string)
    ensures ParseToken(token).Key? <==> '=' !in token
    ensures ParseToken(token).Key? ==> ParseToken(token).key == token
    ensures ParseToken(token).KeyValue? ==>
              var k, v := ParseToken(token).key, ParseToken(token).value;
              && '=' !in k && '=' !in v
              && |k| + 1 + |v| <= |token|
              && token[..|k| + 1 + |v|] == k + "=" + v
              && (|token| == |k| + 1 + |v| || token[|k| + 1 + |v|] == '=')
  {
    var pieces := Split(token, '=');
    SplitJoin(token, '=');
    if |pieces| == 1 {
      assert token == pieces[0];
    } else {
      var k, v := pieces[0], pieces[1];
      var tail := if |pieces| == 2 then [] else ['='] + Join(pieces[2..], '=');
      JoinFirstTwo(pieces, '=');
      assert token == (k + "=" + v) + tail;
      assert token[|k|] == '=';
    }
  }

  /** A token with no `=` is a key test on itself. */
  lemma ParseKeyToken(k: string)
    requires '=' !in k
    ensures ParseToken(k) == Key(k)
  {
  }

  /** A token `k=v` with no other `=` is the key/value test on `k` and `v`. */
  lemma ParseKeyValueToken(k: string, v: string)
    requires '=' !in k && '=' !in v
    ensures ParseToken(k + "=" + v) == KeyValue(k, v)
  {
    SplitAt(k, '=', v);
  }

  /**
   With an argument, the filters are one per comma-separated token, in the
   order of the tokens, and the tokens are exactly the argument cut at its
   commas; there is always at least one. Without one, the only filter is the
   default key test.
   */
  lemma {:induction false} FilterListSpec(arg: Option<string>)
    ensures arg.None? ==> FilterList(arg) == [Key("highway")]
    ensures arg.Some? ==>
              var tokens := Split(arg.value, ',');
              && |FilterList(arg)| == Count(arg.value, ',') + 1
              && |FilterList(arg)| == |tokens|
              && Join(tokens, ',') == arg.value
              && (forall i :: 0 <= i < |tokens| ==> ',' !in tokens[i] && FilterList(arg)[i] == ParseToken(tokens[i]))
  {
    if arg.Some? {
      SplitCount(arg.value, ',');
      SplitJoin(arg.value, ',');
    }
  }

  /** A token `k=v=...` keeps `v` as the value and drops everything after the second `=`. */
  lemma ParseDroppedTail(k: string, v: string, rest: string)
    requires '=' !in k && '=' !in v
    ensures ParseToken(k + "=" + v + "=" + rest) == KeyValue(k, v)
  {
    assert k + "=" + v + "=" + rest == k + ['='] + (v + ['='] + rest);
    SplitAt(k, '=', v + ['='] + rest);
    SplitAt(v, '=', rest);
  }

  /** A token with neither of two characters in its parts has neither in `k=v`. */
  lemma NotInPair(k: string, v: string, c: char)
    requires c != '=' && c !in k && c !in v
    ensures c !in k + "=" + v
  {
    var t := k + "=" + v;
    forall i | 0 <= i < |t| ensures t[i] != c {
      if i < |k| {
        assert t[i] == k[i];
      } else if i > |k| {
        assert t[i] == v[i - |k| - 1];
      }
    }
  }

  /** Two comma-separated tokens give two filters, in order. */
  lemma FilterListTwoTokens(t1: string, t2: string)
    requires ',' !in t1 && ',' !in t2
    ensures FilterList(Some(t1 + "," + t2)) == [ParseToken(t1), ParseToken(t2)]
  {
    SplitAt(t1, ',', t2);
  }

  /** `k1=v1,k2=v2` is two key/value tests, in order. */
  lemma FilterListTwoPairs(k1: string, v1: string, k2: string, v2: string)
    requires '=' !in k1 && '=' !in v1 && '=' !in k2 && '=' !in v2
    requires ',' !in k1 && ',' !in v1 && ',' !in k2 && ',' !in v2
    ensures FilterList(Some(k1 + "=" + v1 + "," + k2 + "=" + v2)) == [KeyValue(k1, v1), KeyValue(k2, v2)]
  {
    var t1, t2 := k1 + "=" + v1, k2 + "=" + v2;
    assert k1 + "=" + v1 + "," + k2 + "=" + v2 == t1 + "," + t2;
    NotInPair(k1, v1, ',');
    NotInPair(k2, v2, ',');
    FilterListTwoTokens(t1, t2);
    ParseKeyValueToken(k1, v1);
    ParseKeyValueToken(k2, v2);
  }

  /** An argument without commas or `=` is a single key test on the whole argument. */
  lemma FilterListSingleKey(k: string)
    requires '=' !in k && ',' !in k
    ensures FilterList(Some(k)) == [Key(k)]
  {
    ParseKeyToken(k);
  }

  /** `highway` is a single key test, and so is the empty argument (on the empty key). */
  lemma ExampleSingleKeys()
    ensures FilterList(Some("highway")) == [Key("highway")]
    ensures FilterList(Some("")) == [Key("")]
  {
    FilterListSingleKey("highway");
    FilterListSingleKey("");
  }

  /** `highway=primary,surface=paved` is two key/value tests, in order. */
  lemma ExampleTwoPairs()
    ensures var k1, v1, k2, v2 := "highway", "primary", "surface", "paved";
            FilterList(Some(k1 + "=" + v1 + "," + k2 + "=" + v2)) == [KeyValue(k1, v1), KeyValue(k2, v2)]
  {
    FilterListTwoPairs("highway", "primary", "surface", "paved");
  }

  /** `a=b=c` is the key/value test on `a` and `b`: the third `=`-piece is dropped. */
  lemma ExampleDroppedPiece()
    ensures var a, b, c := "a", "b", "c";
            FilterList(Some(a + "=" + b + "=" + c)) == [KeyValue(a, b)]
  {
    var t := "a" + "=" + "b" + "=" + "c";
    ParseDroppedTail("a", "b", "c");
    assert ',' !in t;
  }

  /** `a=,b` tests `a` for the empty value, then tests for the key `b`. */
  lemma ExampleEmptyValue()
    ensures var a, b := "a", "b";
            FilterList(Some(a + "=" + "," + b)) == [KeyValue(a, ""), Key(b)]
  {
    NotInPair("a", "", ',');
    assert "a" + "=" + "," + "b" == ("a" + "=" + "") + "," + "b";
    FilterListTwoTokens("a" + "=" + "", "b");
    ParseKeyValueToken("a", "");
    ParseKeyToken("b");
  }

  /** `a,` tests for the key `a`, then for the empty key. */
  lemma ExampleEmptyKey()
    ensures var a := "a";
            FilterList(Some(a + "," + "")) == [Key(a), Key("")]
  {
    FilterListTwoTokens("a", "");
    ParseKeyToken("a");
    ParseKeyToken("");
  }

  /** Whether one condition holds of a tag map. */
  predicate Matches(f: Filter, tags: map<string, string>)
  {
    match f
    case Key(k) => k in tags
    case KeyValue(k, v) => k in tags && tags[k] == v
  }

  /** The condition list as a whole: a logical OR over its conditions. */
  predicate MatchesAny(filters: seq<Filter>, tags: map<string, string>)
  {
    exists i :: 0 <= i < |filters| && Matches(filters[i], tags)
  }

  /**
   The selection predicate: visits every condition (there is no early exit)
   and raises the flag whenever one holds.
   */
  method EvalFilters(filters: seq<Filter>, tags: map<string, string>) returns (retVal: bool)
    ensures retVal == MatchesAny(filters, tags)
    ensures filters == [] ==> !retVal
  {
    retVal := false;
    for i := 0 to |filters|
      invariant retVal <==> exists j :: 0 <= j < i && Matches(filters[j], tags)
    {
      match filters[i] {
        case Key(k) =>
          if k in tags {
            retVal := true;
          }
        case KeyValue(k, v) =>
          if k in tags && tags[k] == v {
            retVal := true;
          }
      }
    }
  }

  /**
   Only which conditions occur matters: neither their order nor how often each
   is repeated changes the verdict.
   */
  lemma MatchesAnySameConditions(a: seq<Filter>, b: seq<Filter>, tags: map<string, string>)
    requires forall f :: f in a <==> f in b
    ensures MatchesAny(a, tags) <==> MatchesAny(b, tags)
  {
    if MatchesAny(a, tags) {
      var i :| 0 <= i < |a| && Matches(a[i], tags);
      assert a[i] in b;
      var j :| 0 <= j < |b| && b[j] == a[i];
    }
    if MatchesAny(b, tags) {
      var j :| 0 <= j < |b| && Matches(b[j], tags);
      assert b[j] in a;
      var i :| 0 <= i < |a| && a[i] == b[j];
    }
  }

  /** Repeating a condition that is already in the list changes nothing. */
  lemma MatchesAnyRepeat(a: seq<Filter>, f: Filter, tags: map<string, string>)
    requires f in a
    ensures MatchesAny(a + [f], tags) <==> MatchesAny(a, tags)
  {
    forall g ensures g in a + [f] <==> g in a {
    }
    MatchesAnySameConditions(a + [f], a, tags);
  }

  /** Concatenating two condition lists ORs their verdicts. */
  lemma MatchesAnyConcat(a: seq<Filter>, b: seq<Filter>, tags: map<string, string>)
    ensures MatchesAny(a + b, tags) <==> MatchesAny(a, tags) || MatchesAny(b, tags)
  {
    if MatchesAny(a + b, tags) {
      var i :| 0 <= i < |a + b| && Matches((a + b)[i], tags);
      if i < |a| {
        assert a[i] == (a + b)[i];
      } else {
        assert b[i - |a|] == (a + b)[i];
      }
    }
    if MatchesAny(a, tags) {
      var i :| 0 <= i < |a| && Matches(a[i], tags);
      assert (a + b)[i] == a[i];
    }
    if MatchesAny(b, tags) {
      var j :| 0 <= j < |b| && Matches(b[j], tags);
      assert (a + b)[|a| + j] == b[j];
    }
  }

  /**
   A key test ignores the value: it holds exactly when some key/value test on
   the same key holds, and every key/value test that holds implies it.
   */
  lemma KeyIgnoresValue(k: string, tags: map<string, string>)
    ensures Matches(Key(k), tags) <==> exists v :: Matches(KeyValue(k, v), tags)
    ensures forall v :: Matches(KeyValue(k, v), tags) ==> Matches(Key(k), tags)
  {
    if k in tags {
      assert Matches(KeyValue(k, tags[k]), tags);
    }
  }

  /** A key/value test compares the stored value exactly. */
  lemma KeyValueExact(k: string, v: string, w: string, tags: map<string, string>)
    ensures Matches(KeyValue(k, v), tags[k := v])
    ensures w != v ==> !Matches(KeyValue(k, v), tags[k := w])
    ensures k !in tags ==> !Matches(KeyValue(k, v), tags) && !Matches(Key(k), tags)
  {
  }

  /** Examples: a residential highway matches a key test on `highway` but not `highway=primary`. */
  lemma MatchExamples()
    ensures MatchesAny([Key("highway")], map["highway" := "residential"])
    ensures !MatchesAny([KeyValue("highway", "primary")], map["highway" := "residential"])
    ensures !MatchesAny([], map["highway" := "residential"])
  {
    assert Matches([Key("highway")][0], map["highway" := "residential"]);
    assert "residential" != "primary" by {
      assert "residential"[0] != "primary"[0];
    }
  }
}
