/** Pattern trees of LPeg and the parsing-expression semantics they stand for.

  A tree is the datatype form of LPeg's flat `TTree` array.  `Call(r)` refers to
  rule number `r` of the innermost enclosing `Grammar`, which is the only grammar
  an open call can be fixed to.  Captures are transparent: they never change which
  text is matched.
 */
module Peg {

  type Byte = b: int | 0 <= b < 256

  type Charset = set<Byte>

  const FULL: Charset := set b: Byte | 0 <= b < 256 :: b

  type Subject = seq<Byte>

  datatype Tree =
    | Char(c: Byte)
    | Set(cs: Charset)
    | Any
    | True
    | False
    | Rep(body: Tree)
    | Seq(p1: Tree, p2: Tree)
    | Choice(p1: Tree, p2: Tree)
    | Not(body: Tree)
    | And(body: Tree)
    | Call(rule: nat)
    | Grammar(rules: seq<Tree>)
    | Behind(n: nat, body: Tree)
    | Capture(body: Tree)

  /** Result of matching: failure, a match up to (excluding) position `pos`, or
      `Out` when the evaluation depth did not suffice. */
  datatype Result = Fail | Ok(pos: nat) | Out

  /** Does the subject hold a character of `cs` at position `i`? */
  predicate Has(s: Subject, i: nat, cs: Charset) {
    i < |s| && s[i] in cs
  }

  /** One-character patterns as a set of characters (`tocharset`). */
  function ToCharset(t: Tree): (r: (bool, Charset)) {
    match t
    case Char(c) => (true, {c})
    case Set(cs) => (true, cs)
    case Any => (true, FULL)
    case _ => (false, {})
  }

  /** Big-step PEG semantics with evaluation depth at most `n`; `g` holds the rules
      of the innermost grammar. */
  function Match(g: seq<Tree>, t: Tree, s: Subject, i: nat, n: nat): Result
    decreases n
  {
    if n == 0 then Out else
    match t
    case Char(c) => if Has(s, i, {c}) then Ok(i + 1) else Fail
    case Set(cs) => if Has(s, i, cs) then Ok(i + 1) else Fail
    case Any => if i < |s| then Ok(i + 1) else Fail
    case True => Ok(i)
    case False => Fail
    case Rep(p) => (
      match Match(g, p, s, i, n - 1)
      case Fail => Ok(i)
      case Ok(j) => Match(g, t, s, j, n - 1)
      case Out => Out
    )
    case Seq(p, q) => (
      match Match(g, p, s, i, n - 1)
      case Ok(j) => Match(g, q, s, j, n - 1)
      case r => r
    )
    case Choice(p, q) => (
      match Match(g, p, s, i, n - 1)
      case Fail => Match(g, q, s, i, n - 1)
      case r => r
    )
    case Not(p) => (
      match Match(g, p, s, i, n - 1)
      case Fail => Ok(i)
      case Ok(_) => Fail
      case Out => Out
    )
    case And(p) => (
      match Match(g, p, s, i, n - 1)
      case Ok(_) => Ok(i)
      case r => r
    )
    case Call(r) => if r < |g| then Match(g, g[r], s, i, n - 1) else Fail
    case Grammar(rs) => if rs == [] then Fail else Match(rs, rs[0], s, i, n - 1)
    case Behind(k, p) =>
      if k > i then Fail else (
        match Match(g, p, s, i - k, n - 1)
        case Ok(_) => Ok(i)
        case r => r
      )
    case Capture(p) => Match(g, p, s, i, n - 1)
  }

  /** The semantics is a partial function: a deeper evaluation never changes an answer. */
  lemma {:induction false} MatchMonotone(g: seq<Tree>, t: Tree, s: Subject, i: nat, n: nat, m: nat)
    requires n <= m
    requires Match(g, t, s, i, n) != Out
    ensures Match(g, t, s, i, m) == Match(g, t, s, i, n)
    decreases n
  {
    match t
    case Rep(p) =>
      MatchMonotone(g, p, s, i, n - 1, m - 1);
      var r := Match(g, p, s, i, n - 1);
      if r.Ok? { MatchMonotone(g, t, s, r.pos, n - 1, m - 1); }
    case Seq(p, q) =>
      MatchMonotone(g, p, s, i, n - 1, m - 1);
      var r := Match(g, p, s, i, n - 1);
      if r.Ok? { MatchMonotone(g, q, s, r.pos, n - 1, m - 1); }
    case Choice(p, q) =>
      MatchMonotone(g, p, s, i, n - 1, m - 1);
      if Match(g, p, s, i, n - 1).Fail? { MatchMonotone(g, q, s, i, n - 1, m - 1); }
    case Not(p) => MatchMonotone(g, p, s, i, n - 1, m - 1);
    case And(p) => MatchMonotone(g, p, s, i, n - 1, m - 1);
    case Call(r) => if r < |g| { MatchMonotone(g, g[r], s, i, n - 1, m - 1); }
    case Grammar(rs) => if rs != [] { MatchMonotone(rs, rs[0], s, i, n - 1, m - 1); }
    case Behind(k, p) => if k <= i { MatchMonotone(g, p, s, i - k, n - 1, m - 1); }
    case Capture(p) => MatchMonotone(g, p, s, i, n - 1, m - 1);
    case _ =>
  }

  /** A match never moves backwards and stays inside the subject. */
  lemma {:induction false} MatchRange(g: seq<Tree>, t: Tree, s: Subject, i: nat, n: nat)
    requires i <= |s|
    ensures var r := Match(g, t, s, i, n); r.Ok? ==> i <= r.pos <= |s|
    decreases n
  {
    if n > 0 {
      match t
      case Rep(p) =>
        MatchRange(g, p, s, i, n - 1);
        var r := Match(g, p, s, i, n - 1);
        if r.Ok? { MatchRange(g, t, s, r.pos, n - 1); }
      case Seq(p, q) =>
        MatchRange(g, p, s, i, n - 1);
        var r := Match(g, p, s, i, n - 1);
        if r.Ok? { MatchRange(g, q, s, r.pos, n - 1); }
      case Choice(p, q) =>
        MatchRange(g, p, s, i, n - 1);
        MatchRange(g, q, s, i, n - 1);
      case Call(r) => if r < |g| { MatchRange(g, g[r], s, i, n - 1); }
      case Grammar(rs) => if rs != [] { MatchRange(rs, rs[0], s, i, n - 1); }
      case Capture(p) => MatchRange(g, p, s, i, n - 1);
      case _ =>
    }
  }

  /** The depth-independent meaning of a pattern: some depth answers `r`. */
  ghost predicate Means(g: seq<Tree>, t: Tree, s: Subject, i: nat, r: Result) {
    r != Out && exists n: nat :: Match(g, t, s, i, n) == r
  }

  /** A pattern has at most one meaning at a position. */
  lemma MeansUnique(g: seq<Tree>, t: Tree, s: Subject, i: nat, r: Result, r': Result)
    requires Means(g, t, s, i, r) && Means(g, t, s, i, r')
    ensures r == r'
  {
    var n: nat :| Match(g, t, s, i, n) == r;
    var m: nat :| Match(g, t, s, i, m) == r';
    if n <= m {
      MatchMonotone(g, t, s, i, n, m);
    } else {
      MatchMonotone(g, t, s, i, m, n);
    }
  }
}
