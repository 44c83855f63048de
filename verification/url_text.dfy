/** Splitting and joining text on a separator, as the client does with
    `String.split` and as a query string is assembled from `key=value`
    pairs joined by `&`. */
module UrlText {

  /** The first position of `c` in `s`. */
  function IndexOf(s: string, c: char): (i: nat)
    requires c in s
    ensures i < |s| && s[i] == c && c !in s[..i]
  {
    if s[0] == c then 0
    else
      assert c in s[1..] by { assert forall x :: x in s && x != s[0] ==> x in s[1..]; }
      var j := IndexOf(s[1..], c);
      assert s[..j + 1] == [s[0]] + s[1..][..j];
      j + 1
  }

  /** A position holding `c` with no `c` before it is the first one. */
  lemma IndexOfAt(s: string, c: char, k: nat)
    requires k < |s| && s[k] == c && c !in s[..k]
    ensures IndexOf(s, c) == k
  {
    var i := IndexOf(s, c);
    assert forall j :: 0 <= j < k ==> s[..k][j] == s[j];
    assert forall j :: 0 <= j < i ==> s[..i][j] == s[j];
  }

  /** `s.split(c)`: the pieces between the separators, at least one. */
  function Split(s: string, c: char): (r: seq<string>)
    ensures |r| >= 1
    ensures forall p :: p in r ==> c !in p
    decreases |s|
  {
    if c !in s then [s]
    else
      var i := IndexOf(s, c);
      [s[..i]] + Split(s[i + 1..], c)
  }

  /** `parts.join(c)`. */
  function Join(parts: seq<string>, c: char): string
    requires |parts| >= 1
  {
    if |parts| == 1 then parts[0] else parts[0] + [c] + Join(parts[1..], c)
  }

  /** Splitting a joined list gives the list back when no piece holds the
      separator. */
  lemma {:induction false} SplitJoin(parts: seq<string>, c: char)
    requires |parts| >= 1
    requires forall p :: p in parts ==> c !in p
    ensures Split(Join(parts, c), c) == parts
  {
    if |parts| > 1 {
      var s := Join(parts, c);
      var rest := Join(parts[1..], c);
      assert s == parts[0] + [c] + rest;
      assert s[|parts[0]|] == c;
      assert s[..|parts[0]|] == parts[0];
      IndexOfAt(s, c, |parts[0]|);
      assert s[|parts[0]| + 1..] == rest;
      assert forall p :: p in parts[1..] ==> p in parts;
      SplitJoin(parts[1..], c);
    }
  }

  /** Joining the pieces of a split gives the text back. */
  lemma {:induction false} JoinSplit(s: string, c: char)
    ensures Join(Split(s, c), c) == s
    decreases |s|
  {
    if c in s {
      var i := IndexOf(s, c);
      JoinSplit(s[i + 1..], c);
      assert s == s[..i] + [c] + s[i + 1..];
    }
  }

  /** The `n`-th piece of a split, or "" where JavaScript gives
      `undefined`. */
  function Piece(s: string, c: char, n: nat): (r: string)
    ensures c !in r
    // without a separator the whole text is the only piece
    ensures c !in s ==> r == (if n == 0 then s else "")
    // the first piece is the text up to the first separator
    ensures n == 0 ==> |r| <= |s| && r == s[..|r|] && (|r| < |s| ==> s[|r|] == c)
  {
    var parts := Split(s, c);
    if n < |parts| then parts[n] else ""
  }

  /** One `key=value` pair of a query string. */
  function Pair(kv: (string, string)): string {
    kv.0 + "=" + kv.1
  }

  /** The query string of a list of pairs. */
  function QueryString(ps: seq<(string, string)>): string
    requires |ps| >= 1
  {
    Join(seq(|ps|, i requires 0 <= i < |ps| => Pair(ps[i])), '&')
  }

  /** How a server reads one pair: the key up to the first `=`, the value
      after it (empty when there is no `=`). */
  function ParsePair(p: string): (string, string) {
    if '=' in p then
      var i := IndexOf(p, '=');
      (p[..i], p[i + 1..])
    else (p, "")
  }

  function ParseQuery(q: string): (r: seq<(string, string)>)
    ensures |r| == |Split(q, '&')|
  {
    var parts := Split(q, '&');
    seq(|parts|, i requires 0 <= i < |parts| => ParsePair(parts[i]))
  }

  /** Pairs whose keys hold neither separator and whose values hold no `&`
      survive the trip through a query string. */
  predicate Plain(ps: seq<(string, string)>) {
    forall i :: 0 <= i < |ps| ==> '&' !in ps[i].0 && '=' !in ps[i].0 && '&' !in ps[i].1
  }

  lemma ParsePairOfPair(kv: (string, string))
    requires '=' !in kv.0
    ensures ParsePair(Pair(kv)) == kv
  {
    var p := Pair(kv);
    assert p[|kv.0|] == '=';
    IndexOfAt(p, '=', |kv.0|);
    var i := IndexOf(p, '=');
    assert p[..i] == kv.0;
    assert p[i + 1..] == kv.1;
  }

  lemma QueryRoundTrip(ps: seq<(string, string)>)
    requires |ps| >= 1 && Plain(ps)
    ensures ParseQuery(QueryString(ps)) == ps
  {
    var pieces := seq(|ps|, i requires 0 <= i < |ps| => Pair(ps[i]));
    forall p | p in pieces ensures '&' !in p {
      var i :| 0 <= i < |ps| && pieces[i] == p;
      assert p == ps[i].0 + "=" + ps[i].1;
    }
    SplitJoin(pieces, '&');
    forall i | 0 <= i < |ps| ensures ParsePair(pieces[i]) == ps[i] {
      ParsePairOfPair(ps[i]);
    }
  }
}
