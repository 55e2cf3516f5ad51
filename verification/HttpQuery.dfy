/** The query of a request's target and its arguments (Net/HTTP/http.cpp, parseUrlParams). */
module HttpQuery {

  type Args = map<string, string>

  datatype Pair = Pair(key: string, value: string)

  /** The part of a text before the first such character. */
  function Until(s: string, c: char): (part: string)
    ensures part <= s && c !in part && (|part| < |s| ==> s[|part|] == c)
  {
    if s == [] || s[0] == c then [] else [s[0]] + Until(s[1..], c)
  }

  function BeforeQuery(target: string): string {
    Until(target, '?')
  }

  /** What follows the first such character; nothing when there is none. */
  function Behind(s: string, c: char): (rest: string)
    ensures |rest| <= |s| && (s != [] ==> |rest| < |s|)
  {
    var part := Until(s, c);
    if |part| < |s| then s[|part| + 1..] else []
  }

  /** The arguments, each a key up to an equals sign and a value up to an ampersand; later ones override. */
  function QueryArgs(query: string, args: Args): Args
    decreases |query|
  {
    if '=' !in query then args
    else
      var value := Behind(query, '=');
      QueryArgs(Behind(value, '&'), args[Until(query, '=') := Until(value, '&')])
  }

  function From(s: string, k: nat): string {
    if k <= |s| then s[k..] else []
  }

  lemma FirstEquals(query: string)
    ensures |Until(query, '=')| == |query| <==> '=' !in query
  {
  }

  lemma BehindIs(s: string, k: nat, c: char)
    requires k <= |s|
    ensures Behind(s[k..], c) == From(s, k + |Until(s[k..], c)| + 1)
  {
    var part := Until(s[k..], c);
    if |part| < |s[k..]| {
      assert s[k..][|part| + 1..] == s[k + |part| + 1..];
    }
  }

  /** One turn of the loop over the arguments. */
  lemma ArgsStep(query: string, start: nat, args: Args)
    requires start <= |query|
    ensures var key := Until(query[start..], '=');
      var eq := start + |key|;
      if eq == |query| then QueryArgs(query[start..], args) == args
      else
        var value := Until(query[eq + 1..], '&');
        QueryArgs(query[start..], args) == QueryArgs(From(query, eq + 1 + |value| + 1), args[key := value])
  {
    hide Until, Behind;
    FirstEquals(query[start..]);
    BehindIs(query, start, '=');
    var eq := start + |Until(query[start..], '=')|;
    if eq < |query| {
      BehindIs(query, eq + 1, '&');
    }
  }

  /** The loop of parseUrlParams. */
  method ParseArgs(query: string, before: Args) returns (args: Args)
    ensures args == QueryArgs(query, before)
  {
    hide Until, Behind, QueryArgs;
    args := before;
    var start := 0;
    assert From(query, 0) == query;
    while start < |query|
      invariant QueryArgs(query, before) == QueryArgs(From(query, start), args)
      decreases |query| - start
    {
      ArgsStep(query, start, args);
      var key := Until(query[start..], '=');
      var eq := start + |key|;
      if eq == |query| {
        return;
      }
      var value := Until(query[eq + 1..], '&');
      args := args[key := value];
      start := eq + 1 + |value| + 1;
    }
    NoArgs(args);
    assert From(query, start) == [];
  }

  lemma NoArgs(args: Args)
    ensures QueryArgs([], args) == args
  {
  }

  /** parseUrlParams: the url, and the arguments, which are added to those that are there. */
  method ParseUrlParams(queryUrl: string, before: Args) returns (url: string, args: Args)
    ensures url == BeforeQuery(queryUrl)
    ensures args == QueryArgs(Behind(queryUrl, '?'), before)
  {
    hide QueryArgs;
    NoArgs(before);
    url := Until(queryUrl, '?');
    if |url| < |queryUrl| {
      args := ParseArgs(queryUrl[|url| + 1..], before);
    } else {
      args := before;
    }
  }

  // ---------------------------------------------------------------- keys and values that are found again

  /** A query is made of pairs, with ampersands between them. */
  function Joined(pairs: seq<Pair>): string {
    if pairs == [] then []
    else pairs[0].key + "=" + pairs[0].value + if |pairs| == 1 then [] else "&" + Joined(pairs[1..])
  }

  function Gathered(pairs: seq<Pair>, args: Args): Args {
    if pairs == [] then args else Gathered(pairs[1..], args[pairs[0].key := pairs[0].value])
  }

  predicate PairOk(pair: Pair) {
    '=' !in pair.key && '&' !in pair.value
  }

  lemma {:induction false} UntilOf(part: string, c: char, rest: string)
    requires c !in part
    ensures Until(part + [c] + rest, c) == part && Behind(part + [c] + rest, c) == rest
    ensures Until(part, c) == part && Behind(part, c) == []
  {
    var s := part + [c] + rest;
    if part != [] {
      UntilOf(part[1..], c, rest);
      assert s[1..] == part[1..] + [c] + rest;
    }
    assert s[|part| + 1..] == rest;
  }

  /** Pairs that were joined are found again. */
  lemma {:induction false} JoinedParsed(pairs: seq<Pair>, args: Args)
    requires forall k :: 0 <= k < |pairs| ==> PairOk(pairs[k])
    ensures QueryArgs(Joined(pairs), args) == Gathered(pairs, args)
    decreases |pairs|
  {
    hide Until, Behind;
    if pairs != [] {
      var pair, rest := pairs[0], Joined(pairs[1..]);
      var value := pair.value + if |pairs| == 1 then [] else "&" + rest;
      assert Joined(pairs) == pair.key + ['='] + value;
      UntilOf(pair.key, '=', value);
      UntilOf(pair.value, '&', rest);
      if |pairs| == 1 {
        assert value == pair.value && pairs[1..] == [];
      } else {
        assert value == pair.value + ['&'] + rest;
      }
      JoinedParsed(pairs[1..], args[pair.key := pair.value]);
    }
  }

  ghost predicate ArgsOk(args: Args) {
    forall key :: key in args ==> PairOk(Pair(key, args[key]))
  }

  lemma {:induction false} ParsedArgs(query: string, args: Args)
    requires ArgsOk(args)
    ensures ArgsOk(QueryArgs(query, args))
    decreases |query|
  {
    if '=' in query {
      var value := Behind(query, '=');
      ParsedArgs(Behind(value, '&'), args[Until(query, '=') := Until(value, '&')]);
    }
  }

  ghost predicate DistinctKeys(pairs: seq<Pair>) {
    forall j, k :: 0 <= j < k < |pairs| ==> pairs[j].key != pairs[k].key
  }

  /** An argument has the value of the last pair with its key. */
  lemma {:induction false} LastPair(pairs: seq<Pair>, args: Args, k: nat)
    requires k < |pairs| && forall j :: k < j < |pairs| ==> pairs[j].key != pairs[k].key
    ensures pairs[k].key in Gathered(pairs, args) && Gathered(pairs, args)[pairs[k].key] == pairs[k].value
    decreases |pairs|
  {
    var args' := args[pairs[0].key := pairs[0].value];
    if k > 0 {
      LastPair(pairs[1..], args', k - 1);
    } else {
      OtherPairs(pairs[1..], args', pairs[0].key);
    }
  }

  /** And others keep the value that they had, if any. */
  lemma {:induction false} OtherPairs(pairs: seq<Pair>, args: Args, key: string)
    requires forall j :: 0 <= j < |pairs| ==> pairs[j].key != key
    ensures key in Gathered(pairs, args) <==> key in args
    ensures key in args ==> Gathered(pairs, args)[key] == args[key]
    decreases |pairs|
  {
    if pairs != [] {
      OtherPairs(pairs[1..], args[pairs[0].key := pairs[0].value], key);
    }
  }

  /** With different keys, the pairs of a query are found again exactly when no key has an equals sign and no
      value an ampersand. */
  lemma QueryRoundTrip(pairs: seq<Pair>)
    requires DistinctKeys(pairs)
    ensures QueryArgs(Joined(pairs), map[]) == Gathered(pairs, map[]) <==>
      forall k :: 0 <= k < |pairs| ==> PairOk(pairs[k])
  {
    if forall k :: 0 <= k < |pairs| ==> PairOk(pairs[k]) {
      JoinedParsed(pairs, map[]);
    }
    if QueryArgs(Joined(pairs), map[]) == Gathered(pairs, map[]) {
      ParsedArgs(Joined(pairs), map[]);
      forall k | 0 <= k < |pairs|
        ensures PairOk(pairs[k])
      {
        LastPair(pairs, map[], k);
      }
    }
  }

  // ---------------------------------------------------------------- any query

  /** Pairs, each with an ampersand behind it, but perhaps the last one, and a text that is no pair. */
  function QueryText(pairs: seq<Pair>, tail: string, ended: bool): string {
    if pairs == [] then tail
    else if |pairs| == 1 && !ended then pairs[0].key + "=" + pairs[0].value
    else pairs[0].key + "=" + pairs[0].value + "&" + QueryText(pairs[1..], tail, ended)
  }

  /** The pairs of a query of this kind are its arguments; the text behind them is ignored. */
  lemma {:induction false} QueryMeans(pairs: seq<Pair>, tail: string, ended: bool, args: Args)
    requires (forall k :: 0 <= k < |pairs| ==> PairOk(pairs[k])) && '=' !in tail
    ensures QueryArgs(QueryText(pairs, tail, ended), args) == Gathered(pairs, args)
    decreases |pairs|
  {
    hide Until, Behind;
    if pairs != [] {
      var pair, rest := pairs[0], QueryText(pairs[1..], tail, ended);
      var last := |pairs| == 1 && !ended;
      var value := if last then pair.value else pair.value + ['&'] + rest;
      assert QueryText(pairs, tail, ended) == pair.key + ['='] + value;
      UntilOf(pair.key, '=', value);
      UntilOf(pair.value, '&', rest);
      if last {
        assert pairs[1..] == [];
        NoArgs(args[pair.key := pair.value]);
      } else {
        QueryMeans(pairs[1..], tail, ended, args[pair.key := pair.value]);
      }
    }
  }

  /** Every query is of this kind. */
  lemma {:induction false} QueryParts(query: string) returns (pairs: seq<Pair>, tail: string, ended: bool)
    ensures (forall k :: 0 <= k < |pairs| ==> PairOk(pairs[k])) && '=' !in tail
    ensures query == QueryText(pairs, tail, ended)
    decreases |query|
  {
    hide Until;
    if '=' !in query {
      pairs, tail, ended := [], query, true;
    } else {
      var first, rest, last := FirstPair(query);
      if last {
        pairs, tail, ended := [first], [], false;
      } else {
        pairs, tail, ended := QueryParts(rest);
        QueryCons(first, pairs, tail, ended);
        if pairs == [] {
          ended := true;
        }
        pairs := [first] + pairs;
      }
    }
  }

  lemma QueryCons(first: Pair, pairs: seq<Pair>, tail: string, ended: bool)
    ensures QueryText([first] + pairs, tail, ended || pairs == []) == first.key + "=" + first.value + "&" + QueryText(pairs, tail, ended)
  {
    assert ([first] + pairs)[1..] == pairs;
  }

  lemma FirstPair(query: string) returns (first: Pair, rest: string, last: bool)
    requires '=' in query
    ensures PairOk(first) && |rest| < |query|
    ensures query == first.key + "=" + first.value + if last then "" else "&" + rest
  {
    hide Until;
    UntilFound(query, '=');
    var key := Until(query, '=');
    var behind := query[|key| + 1..];
    var value := Until(behind, '&');
    first, last := Pair(key, value), |value| == |behind|;
    rest := if last then "" else behind[|value| + 1..];
    var end := if last then "" else "&" + rest;
    CutAt(query, key, "=");
    if !last {
      CutAt(behind, value, "&");
    }
    assert behind == value + end;
    JoinParts(key, "=", value, end);
  }

  lemma CutAt(s: string, part: string, mark: string)
    requires part <= s && |part| < |s| && mark == [s[|part|]]
    ensures s == part + (mark + s[|part| + 1..])
  {
  }

  lemma JoinParts(a: string, b: string, c: string, d: string)
    ensures a + (b + (c + d)) == a + b + c + d
  {
  }

  lemma {:induction false} UntilFound(s: string, c: char)
    requires c in s
    ensures |Until(s, c)| < |s|
  {
    if s[0] != c {
      UntilFound(s[1..], c);
    }
  }

  /** A target is a url, or a url, a question mark and a query. */
  lemma TargetMeans(url: string, query: string)
    requires '?' !in url
    ensures BeforeQuery(url) == url && Behind(url, '?') == []
    ensures BeforeQuery(url + ['?'] + query) == url && Behind(url + ['?'] + query, '?') == query
  {
    UntilOf(url, '?', query);
  }
}
