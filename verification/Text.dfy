/** The legacy text protocol: splitting payloads, the bulk reply, and nicknames with outer spaces. */
module Text {
  import opened Numbers
  import opened Sequences

  // ---------------------------------------------------------------- splitting

  /** The position of the first `d` at or after `from`, the length if there is none. */
  function Find(s: string, d: char, from: nat): (p: nat)
    requires from <= |s|
    ensures from <= p <= |s| && (p < |s| ==> s[p] == d)
    ensures forall k :: from <= k < p ==> s[k] != d
    decreases |s| - from
  {
    if from == |s| || s[from] == d then from else Find(s, d, from + 1)
  }

  /** The tokens of the text from `from` on. */
  function Tokens(s: string, d: char, from: nat): seq<string>
    requires from <= |s|
    decreases |s| - from
  {
    var p := Find(s, d, from);
    if p < |s| then [s[from..p]] + Tokens(s, d, p + 1) else [s[from..]]
  }

  function Join(tokens: seq<string>, d: char): string {
    if |tokens| == 0 then ""
    else if |tokens| == 1 then tokens[0]
    else tokens[0] + [d] + Join(tokens[1..], d)
  }

  ghost predicate Clean(tokens: seq<string>, d: char) {
    tokens != [] && forall t :: t in tokens ==> d !in t
  }

  lemma {:induction false} JoinCons(head: string, tail: seq<string>, d: char)
    requires tail != []
    ensures Join([head] + tail, d) == head + [d] + Join(tail, d)
  {
    assert ([head] + tail)[1..] == tail;
  }

  lemma {:induction false} CleanCons(head: string, tail: seq<string>, d: char)
    requires d !in head && Clean(tail, d)
    ensures Clean([head] + tail, d)
  {
  }

  lemma {:induction false} CleanOne(token: string, d: char)
    requires d !in token
    ensures Clean([token], d) && Join([token], d) == token
  {
  }

  lemma {:induction false} CutAt(s: string, d: char, from: nat, p: nat)
    requires from <= p < |s| && s[p] == d
    ensures s[from..] == s[from..p] + [d] + s[p + 1..]
  {
  }

  lemma {:induction false} JoinTokens(s: string, d: char, from: nat)
    requires from <= |s|
    ensures Clean(Tokens(s, d, from), d) && Join(Tokens(s, d, from), d) == s[from..]
    decreases |s| - from
  {
    var p := Find(s, d, from);
    if p < |s| {
      var rest := Tokens(s, d, p + 1);
      JoinTokens(s, d, p + 1);
      CleanCons(s[from..p], rest, d);
      JoinCons(s[from..p], rest, d);
      assert Tokens(s, d, from) == [s[from..p]] + rest;
      CutAt(s, d, from, p);
    } else {
      CleanOne(s[from..], d);
    }
  }

  lemma {:induction false} JoinInjective(a: seq<string>, b: seq<string>, d: char)
    requires Clean(a, d) && Clean(b, d) && Join(a, d) == Join(b, d)
    ensures a == b
  {
    assert a[0] in a && b[0] in b;
    if |a| == 1 || |b| == 1 {
      OneToken(a, b, d);
      OneToken(b, a, d);
    } else {
      var s := Join(a, d);
      FirstToken(a, d);
      FirstToken(b, d);
      assert Clean(a[1..], d) && Clean(b[1..], d);
      JoinInjective(a[1..], b[1..], d);
      assert a == [a[0]] + a[1..] && b == [b[0]] + b[1..];
    }
  }

  lemma {:induction false} ManyHoldDelimiter(a: seq<string>, d: char)
    requires |a| > 1
    ensures d in Join(a, d)
  {
    assert Join(a, d)[|a[0]|] == d;
  }

  lemma {:induction false} OneToken(a: seq<string>, b: seq<string>, d: char)
    requires Clean(a, d) && Clean(b, d) && Join(a, d) == Join(b, d) && |a| == 1
    ensures a == b
  {
    assert a[0] in a;
    if |b| > 1 {
      ManyHoldDelimiter(b, d);
      assert false;
    }
  }

  lemma {:induction false} FindIs(s: string, d: char, from: nat, p: nat)
    requires from <= p < |s| && s[p] == d && forall k :: from <= k < p ==> s[k] != d
    ensures Find(s, d, from) == p
    decreases p - from
  {
    if from < p {
      FindIs(s, d, from + 1, p);
    }
  }

  /** Of several tokens the first ends at the first delimiter. */
  lemma {:induction false} FirstToken(a: seq<string>, d: char)
    requires Clean(a, d) && |a| > 1
    ensures var s := Join(a, d);
            Find(s, d, 0) == |a[0]| < |s| && s[..|a[0]|] == a[0] && s[|a[0]| + 1..] == Join(a[1..], d)
  {
    var s := Join(a, d);
    assert a[0] in a;
    assert s[|a[0]|] == d && forall k :: 0 <= k < |a[0]| ==> s[k] == a[0][k];
    FindIs(s, d, 0, |a[0]|);
  }

  /** The tokens are the one way to write the text as delimiter-free pieces. */
  lemma {:induction false} TokensIff(s: string, d: char, tokens: seq<string>)
    ensures tokens == Tokens(s, d, 0) <==> Clean(tokens, d) && Join(tokens, d) == s
  {
    JoinTokens(s, d, 0);
    assert s[0..] == s;
    if Clean(tokens, d) && Join(tokens, d) == s {
      JoinInjective(tokens, Tokens(s, d, 0), d);
    }
  }

  /** What is left to split from `from` on; past the end, nothing. */
  function Remaining(s: string, d: char, from: nat): seq<string> {
    if from <= |s| then Tokens(s, d, from) else []
  }

  /** Moving the next token over. */
  lemma {:induction false} NextToken(elems: seq<string>, s: string, d: char, from: nat)
    requires from <= |s|
    ensures var p := Find(s, d, from);
            elems + Remaining(s, d, from) == elems + [s[from..p]] + Remaining(s, d, p + 1)
  {
    var p := Find(s, d, from);
    if p < |s| {
      Associative(elems, [s[from..p]], Tokens(s, d, p + 1));
    } else {
      assert s[from..p] == s[from..];
    }
  }

  method FindFirstOf(s: string, d: char, from: nat) returns (pos: nat)
    requires from <= |s|
    ensures pos == Find(s, d, from)
  {
    pos := from;
    while pos < |s| && s[pos] != d
      invariant from <= pos <= |s| && Find(s, d, pos) == Find(s, d, from)
    {
      pos := pos + 1;
    }
  }

  method Split(s: string, d: char) returns (elems: seq<string>)
    ensures elems == Tokens(s, d, 0)
  {
    elems := [];
    var lastPos := 0;
    while lastPos < |s| + 1
      invariant lastPos <= |s| + 1
      invariant elems + Remaining(s, d, lastPos) == Tokens(s, d, 0)
    {
      var pos := FindFirstOf(s, d, lastPos);
      NextToken(elems, s, d, lastPos);
      elems := elems + [s[lastPos..pos]];
      lastPos := pos + 1;
    }
  }

  /** A prefix of the tokens is what a split with a limit is to return once it is long enough, or all there is. */
  lemma {:induction false} Limited(elems: seq<string>, rest: seq<string>, all: seq<string>, maxTokens: nat)
    requires elems + rest == all && |elems| <= maxTokens && (|elems| == maxTokens || rest == [])
    ensures elems == all[..Min(maxTokens, |all|)]
  {
  }

  /** Never more than `maxTokens` tokens, and the first ones. */
  method SplitLimit(s: string, d: char, maxTokens: nat) returns (elems: seq<string>)
    ensures elems == Tokens(s, d, 0)[..Min(maxTokens, |Tokens(s, d, 0)|)]
  {
    ghost var all := Tokens(s, d, 0);
    elems := [];
    if maxTokens == 0 {
      return;
    }
    var lastPos := 0;
    while lastPos < |s| + 1
      invariant lastPos <= |s| + 1 && |elems| < maxTokens
      invariant elems + Remaining(s, d, lastPos) == all
    {
      var pos := FindFirstOf(s, d, lastPos);
      NextToken(elems, s, d, lastPos);
      elems := elems + [s[lastPos..pos]];
      if |elems| >= maxTokens {
        Limited(elems, Remaining(s, d, pos + 1), all, maxTokens);
        return;
      }
      lastPos := pos + 1;
    }
    Limited(elems, [], all, maxTokens);
  }

  // ---------------------------------------------------------------- nicknames

  /** Position `k` belongs to the spaces a text starts or ends with. */
  predicate Outer(s: string, k: nat)
    requires k < |s|
  {
    (forall i :: 0 <= i <= k ==> s[i] == ' ') || (forall i :: k <= i < |s| ==> s[i] == ' ')
  }

  /** Outer spaces, and nothing else, become underscores. */
  function Convert(s: string): (t: string)
    ensures |t| == |s| && forall k {:trigger t[k]} :: 0 <= k < |s| ==> t[k] == if Outer(s, k) then '_' else s[k]
  {
    seq(|s|, k requires 0 <= k < |s| => if Outer(s, k) then '_' else s[k])
  }

  predicate Trimmed(t: string) {
    t == "" || (t[0] != ' ' && t[|t| - 1] != ' ')
  }

  lemma {:induction false} NothingOuter(t: string)
    requires Trimmed(t)
    ensures Convert(t) == t
  {
    forall k | 0 <= k < |t|
      ensures !Outer(t, k)
    {
      assert !(forall i :: 0 <= i <= k ==> t[i] == ' ') by { assert t[0] != ' '; }
      assert !(forall i :: k <= i < |t| ==> t[i] == ' ') by { assert t[|t| - 1] != ' '; }
    }
  }

  lemma {:induction false} ConvertedTrimmed(s: string)
    ensures Trimmed(Convert(s))
  {
    var t := Convert(s);
    if s != "" {
      var last := |s| - 1;
      assert s[0] == ' ' ==> Outer(s, 0);
      assert s[last] == ' ' ==> Outer(s, last);
      assert t[last] != ' ';
    }
  }

  /** Nothing is left to convert. */
  lemma {:induction false} ConvertIdempotent(s: string)
    ensures Convert(Convert(s)) == Convert(s)
  {
    ConvertedTrimmed(s);
    NothingOuter(Convert(s));
  }

  method ConvertNickname(nickname: string) returns (out: string)
    ensures out == Convert(nickname)
  {
    if nickname == "" {
      return nickname;
    }
    if nickname[0] != ' ' && nickname[|nickname| - 1] != ' ' {
      return nickname;
    }
    out := nickname;
    var i := 0;
    while i < |out| && out[i] == ' '
      invariant i <= |out| == |nickname|
      invariant forall k :: 0 <= k < i ==> nickname[k] == ' '
      invariant forall k :: 0 <= k < |out| ==> out[k] == if k < i then '_' else nickname[k]
    {
      out := out[i := '_'];
      i := i + 1;
    }
    var j := |out|;
    while j > 0 && out[j - 1] == ' '
      invariant i <= j <= |out| == |nickname|
      invariant forall k :: j <= k < |out| ==> nickname[k] == ' '
      invariant forall k :: 0 <= k < |out| ==> out[k] == if k < i || j <= k then '_' else nickname[k]
    {
      out := out[j - 1 := '_'];
      j := j - 1;
    }
    forall k | 0 <= k < |nickname|
      ensures out[k] == if Outer(nickname, k) then '_' else nickname[k]
    {
      if i <= k < j {
        assert nickname[i] != ' ' && nickname[j - 1] != ' ';
      }
    }
  }

  // ---------------------------------------------------------------- the bulk reply

  /** Who speaks and who is received, as the client knows it. */
  datatype Speaking = Speaking(clients: set<string>, myNickname: string, talking: set<string>, receivingFrom: set<string>,
                               tangentPressed: bool, transmitting: bool, receivingAny: bool)

  function Flag(b: bool): char { if b then '1' else '0' }

  /** For a converted name: is it speaking, is it being received. */
  function Pair(s: Speaking, name: string): string {
    if name !in s.clients then "00"
    else
      var isMe := s.myNickname != "" && name == s.myNickname;
      [Flag(name in s.talking || (isMe && (s.tangentPressed || s.transmitting))),
       Flag(if isMe then s.receivingAny else name in s.receivingFrom)]
  }

  /**
   The two characters: '1' first if the named client is talking on the radio or is oneself with a button pressed or
   transmitting, '1' second if it is being received, or anything is if it is oneself; '0' otherwise, and for a stranger.
   */
  ghost predicate SpeaksAndIsReceived(s: Speaking, name: string, pair: string) {
    && |pair| == 2 && (forall k :: 0 <= k < 2 ==> pair[k] == '0' || pair[k] == '1')
    && (pair[0] == '1' <==>
          name in s.clients &&
          (name in s.talking || (name != "" && name == s.myNickname && (s.tangentPressed || s.transmitting))))
    && (pair[1] == '1' <==>
          name in s.clients && if name != "" && name == s.myNickname then s.receivingAny else name in s.receivingFrom)
  }

  lemma {:induction false} PairIs(s: Speaking, name: string)
    ensures SpeaksAndIsReceived(s, name, Pair(s, name))
  {
  }

  method SpeakingPair(s: Speaking, nickname: string) returns (pair: string)
    ensures pair == Pair(s, Convert(nickname)) && SpeaksAndIsReceived(s, Convert(nickname), pair)
  {
    var name := ConvertNickname(nickname);
    if name !in s.clients {
      return "00";
    }
    var isMe := s.myNickname != "" && name == s.myNickname;
    var speaking := name in s.talking;
    if isMe {
      speaking := speaking || s.tangentPressed || s.transmitting;
    }
    var receiving := if isMe then s.receivingAny else name in s.receivingFrom;
    pair := [Flag(speaking), Flag(receiving)];
  }

  function Pairs(s: Speaking, names: seq<string>): (pairs: seq<string>)
    ensures |pairs| == |names| && forall k :: 0 <= k < |names| ==> pairs[k] == Pair(s, Convert(names[k]))
  {
    seq(|names|, k requires 0 <= k < |names| => Pair(s, Convert(names[k])))
  }

  function Concat(pairs: seq<string>): string {
    if pairs == [] then "" else Concat(pairs[..|pairs| - 1]) + pairs[|pairs| - 1] + "\t"
  }

  /** Answers a bulk query; the names are the tokens after the command. */
  method BulkReply(s: Speaking, payload: string) returns (result: string)
    ensures result == Concat(Pairs(s, Tokens(payload, '\t', 0)[1..]))
  {
    var tokens := Split(payload, '\t');
    ghost var pairs := Pairs(s, tokens[1..]);
    result := "";
    var i := 1;
    while i < |tokens|
      invariant 1 <= i <= |tokens| && result == Concat(pairs[..i - 1])
    {
      var pair := SpeakingPair(s, tokens[i]);
      assert pairs[..i][..i - 1] == pairs[..i - 1];
      result := result + pair + "\t";
      i := i + 1;
    }
    assert pairs[..|tokens| - 1] == pairs;
  }

  lemma {:induction false} ConcatJoins(pairs: seq<string>)
    ensures Concat(pairs) == Join(pairs + [""], '\t')
  {
    if pairs == [] {
      assert pairs + [""] == [""];
    } else {
      var n := |pairs| - 1;
      ConcatJoins(pairs[..n]);
      JoinLast(pairs[..n], pairs[n], '\t');
      assert pairs[..n] + [pairs[n], ""] == pairs + [""];
    }
  }

  /** Lengthening a trailing empty token by a token and a delimiter. */
  lemma {:induction false} JoinLast(init: seq<string>, token: string, d: char)
    ensures Join(init + [token, ""], d) == Join(init + [""], d) + token + [d]
  {
    if init == [] {
      assert init + [token, ""] == [token] + [""] && init + [""] == [""];
      JoinCons(token, [""], d);
    } else {
      JoinLast(init[1..], token, d);
      assert init + [token, ""] == [init[0]] + (init[1..] + [token, ""]);
      assert init + [""] == [init[0]] + (init[1..] + [""]);
      JoinCons(init[0], init[1..] + [token, ""], d);
      JoinCons(init[0], init[1..] + [""], d);
    }
  }

  lemma {:induction false} ConcatLength(pairs: seq<string>)
    requires forall k :: 0 <= k < |pairs| ==> |pairs[k]| == 2
    ensures |Concat(pairs)| == 3 * |pairs|
  {
    if pairs != [] {
      ConcatLength(pairs[..|pairs| - 1]);
    }
  }

  lemma {:induction false} PairsClean(s: Speaking, names: seq<string>)
    ensures Clean(Pairs(s, names) + [""], '\t')
  {
    forall t | t in Pairs(s, names) + [""]
      ensures '\t' !in t
    {
      if t in Pairs(s, names) {
        var k :| 0 <= k < |names| && Pairs(s, names)[k] == t;
      }
    }
  }

  /** The reply to n names is n pairs of flags, each followed by a tab, and splits back to them and one empty token. */
  lemma {:induction false} BulkReplySplits(s: Speaking, names: seq<string>)
    ensures Tokens(Concat(Pairs(s, names)), '\t', 0) == Pairs(s, names) + [""]
    ensures |Concat(Pairs(s, names))| == 3 * |names|
  {
    ConcatJoins(Pairs(s, names));
    PairsClean(s, names);
    TokensIff(Concat(Pairs(s, names)), '\t', Pairs(s, names) + [""]);
    ConcatLength(Pairs(s, names));
  }

  /** A query put together from names without tabs is answered name by name, each at its own place. */
  lemma {:induction false} BulkRoundTrip(s: Speaking, command: string, names: seq<string>, k: nat)
    requires Clean([command] + names, '\t') && k < |names|
    ensures var reply := Concat(Pairs(s, Tokens(Join([command] + names, '\t'), '\t', 0)[1..]));
            && |reply| == 3 * |names|
            && reply[3 * k..3 * k + 2] == Pair(s, Convert(names[k])) && reply[3 * k + 2] == '\t'
            && SpeaksAndIsReceived(s, Convert(names[k]), reply[3 * k..3 * k + 2])
  {
    PairIs(s, Convert(names[k]));
    TokensIff(Join([command] + names, '\t'), '\t', [command] + names);
    assert ([command] + names)[1..] == names;
    PairAt(Pairs(s, names), k);
  }

  lemma {:induction false} PairAt(pairs: seq<string>, k: nat)
    requires k < |pairs| && forall i :: 0 <= i < |pairs| ==> |pairs[i]| == 2
    ensures |Concat(pairs)| == 3 * |pairs|
    ensures Concat(pairs)[3 * k..3 * k + 2] == pairs[k] && Concat(pairs)[3 * k + 2] == '\t'
  {
    var n := |pairs| - 1;
    ConcatLength(pairs);
    ConcatLength(pairs[..n]);
    if k < n {
      PairAt(pairs[..n], k);
      assert Concat(pairs)[..3 * n] == Concat(pairs[..n]);
    }
  }
}
