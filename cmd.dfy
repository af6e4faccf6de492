/**
 * Helpers of the `chinadns` command (cmd/chinadns/main.go): the
 * `resolverAddrs` flag value (`Set` and `String`), `trimLocPrefix`, and the
 * retry back-off of `runUntilCanceled`.
 */
module ChinaDnsCmd {
  import opened Wrappers
  import opened Strings

  /** What `net.SplitHostPort` returns: the two parts, or an error with its text. */
  datatype HostPort = HostPort(host: string, port: string) | AddrError(msg: string)

  /**
   * `net.SplitHostPort` is left uninterpreted: the helpers take it as a
   * parameter and hold for every splitting function.
   */
  type Splitter = string -> HostPort

  const DefaultPort: string := "53"
  const MissingPort: string := "missing port"

  /** `net.JoinHostPort`: `host:port`, the host bracketed when it holds a colon. */
  function JoinHostPort(host: string, port: string): string {
    if ':' in host then "[" + host + "]:" + port else host + ":" + port
  }

  /**
   * What `Set` does with one comma-separated piece: a piece that splits is
   * kept as it is, one whose error says "missing port" gets port 53, and any
   * other error is returned.
   */
  function NormalizeAddr(addr: string, split: Splitter): Result<string, string> {
    match split(addr)
    case HostPort(_, _) => Success(addr)
    case AddrError(msg) =>
      if Contains(msg, MissingPort) then Success(JoinHostPort(addr, DefaultPort)) else Failure(msg)
  }

  /**
   * All pieces normalized, in order, one entry per piece; or the error of the
   * first piece that cannot be normalized.
   */
  function NormalizeAddrs(pieces: seq<string>, split: Splitter): (r: Result<seq<string>, string>)
    ensures r.Success? ==> |r.value| == |pieces|
    ensures r.Success? ==> forall i :: 0 <= i < |pieces| ==> split(pieces[i]).HostPort? ==> r.value[i] == pieces[i]
    ensures r.Success? ==> forall i :: 0 <= i < |pieces| ==> split(pieces[i]).AddrError? ==>
      Contains(split(pieces[i]).msg, MissingPort) && r.value[i] == JoinHostPort(pieces[i], DefaultPort)
    ensures r.Failure? ==> exists i ::
      && 0 <= i < |pieces|
      && split(pieces[i]) == AddrError(r.error)
      && !Contains(r.error, MissingPort)
      && (forall j :: 0 <= j < i ==> NormalizeAddr(pieces[j], split).Success?)
    ensures r.Success? <==> forall i :: 0 <= i < |pieces| ==> NormalizeAddr(pieces[i], split).Success?
  {
    if |pieces| == 0 then Success([])
    else
      match NormalizeAddr(pieces[0], split)
      case Failure(e) => Failure(e)
      case Success(a) =>
        match NormalizeAddrs(pieces[1..], split)
        case Failure(e) =>
          ghost var i :| 0 <= i < |pieces[1..]| && split(pieces[1..][i]) == AddrError(e) && !Contains(e, MissingPort)
            && forall j :: 0 <= j < i ==> NormalizeAddr(pieces[1..][j], split).Success?;
          assert split(pieces[i + 1]) == AddrError(e);
          assert forall j :: 0 <= j < i + 1 ==> NormalizeAddr(pieces[j], split).Success? by {
            forall j | 0 <= j < i + 1 ensures NormalizeAddr(pieces[j], split).Success? {
              if j > 0 { assert pieces[j] == pieces[1..][j - 1]; }
            }
          }
          Failure(e)
        case Success(rest) =>
          assert forall i :: 0 < i < |pieces| ==> pieces[i] == pieces[1..][i - 1];
          Success([a] + rest)
  }

  /** How `String` shows one entry: the bare host when its port is 53. */
  function Display(addr: string, split: Splitter): string {
    match split(addr)
    case HostPort(host, port) => if port == DefaultPort then host else addr
    case AddrError(_) => addr
  }

  function Shown(addrs: seq<string>, split: Splitter): (r: seq<string>)
    ensures |r| == |addrs| && forall i :: 0 <= i < |addrs| ==> r[i] == Display(addrs[i], split)
  {
    seq(|addrs|, i requires 0 <= i < |addrs| => Display(addrs[i], split))
  }

  /** The value of a `-s` / `-trusted-servers` flag: resolver addresses. */
  class ResolverAddrs {
    var addrs: seq<string>

    constructor (addrs: seq<string>)
      ensures this.addrs == addrs
    {
      this.addrs := addrs;
    }

    /**
     * `String`: the shown entries separated by single commas, no trailing
     * comma, "" for no entries; when no shown entry holds a comma, splitting
     * the text at commas gives the shown entries back.
     */
    method String(split: Splitter) returns (s: string)
      ensures s == JoinWith(Shown(addrs, split), ',')
      ensures |addrs| == 0 ==> s == ""
      ensures |addrs| > 0 && (forall i :: 0 <= i < |addrs| ==> ',' !in Display(addrs[i], split)) ==>
        SplitOn(s, ',') == Shown(addrs, split)
    {
      ghost var shown := Shown(addrs, split);
      var sb := "";
      var lastIdx := |addrs| - 1;
      var i := 0;
      while i < |addrs|
        invariant 0 <= i <= |addrs|
        invariant i == 0 ==> sb == ""
        invariant 0 < i < |addrs| ==> sb == JoinWith(shown[..i], ',') + [',']
        invariant 0 < i == |addrs| ==> sb == JoinWith(shown[..i], ',')
      {
        var piece: string;
        match split(addrs[i]) {
          case HostPort(host, port) =>
            piece := if port == DefaultPort then host else addrs[i];
          case AddrError(_) =>
            piece := addrs[i];
        }
        assert piece == shown[i];
        if i > 0 {
          JoinSnoc(shown[..i], shown[i], ',');
          assert shown[..i] + [shown[i]] == shown[..i + 1];
        } else {
          assert shown[..1] == [shown[0]];
        }
        sb := sb + piece;
        if i < lastIdx {
          sb := sb + [','];
        }
        i := i + 1;
      }
      assert shown[..|addrs|] == shown;
      if |addrs| > 0 && (forall i :: 0 <= i < |addrs| ==> ',' !in Display(addrs[i], split)) {
        SplitJoin(shown, ',');
      }
      return sb;
    }

    /**
     * `Set`: the comma-separated pieces of `s`, each normalized in place; the
     * list is replaced only when every piece is accepted, otherwise the first
     * error is returned and the list is left as it was.
     */
    method Set(s: string, split: Splitter) returns (err: Option<string>)
      modifies this
      ensures var r := NormalizeAddrs(SplitOn(s, ','), split);
        && (r.Success? ==> err == None && addrs == r.value)
        && (r.Failure? ==> err == Some(r.error) && addrs == old(addrs))
    {
      ghost var pieces := SplitOn(s, ',');
      var parts := SplitOn(s, ',');
      var i := 0;
      while i < |parts|
        invariant 0 <= i <= |parts| == |pieces|
        invariant parts[i..] == pieces[i..]
        invariant forall j :: 0 <= j < i ==> NormalizeAddr(pieces[j], split) == Success(parts[j])
        invariant addrs == old(addrs)
      {
        assert parts[i] == pieces[i] by { assert parts[i..][0] == pieces[i..][0]; }
        match split(parts[i]) {
          case HostPort(_, _) =>
          case AddrError(msg) =>
            if Contains(msg, MissingPort) {
              parts := parts[i := JoinHostPort(parts[i], DefaultPort)];
            } else {
              SetFailsAt(pieces, split, i, msg);
              return Some(msg);
            }
        }
        assert parts[i + 1..] == pieces[i + 1..] by {
          assert parts[i + 1..] == parts[i..][1..];
          assert pieces[i + 1..] == pieces[i..][1..];
        }
        i := i + 1;
      }
      SetSucceeds(pieces, split, parts);
      addrs := parts;
      return None;
    }
  }

  /** The first piece that fails decides the error of `NormalizeAddrs`. */
  lemma {:induction false} SetFailsAt(pieces: seq<string>, split: Splitter, i: nat, msg: string)
    requires i < |pieces|
    requires forall j :: 0 <= j < i ==> NormalizeAddr(pieces[j], split).Success?
    requires NormalizeAddr(pieces[i], split) == Failure(msg)
    ensures NormalizeAddrs(pieces, split) == Failure(msg)
  {
    if i > 0 {
      assert NormalizeAddr(pieces[0], split).Success?;
      assert forall j :: 0 <= j < i - 1 ==> pieces[1..][j] == pieces[j + 1];
      SetFailsAt(pieces[1..], split, i - 1, msg);
    }
  }

  /** When every piece is accepted, `NormalizeAddrs` gives the accepted pieces. */
  lemma {:induction false} SetSucceeds(pieces: seq<string>, split: Splitter, parts: seq<string>)
    requires |parts| == |pieces|
    requires forall j :: 0 <= j < |pieces| ==> NormalizeAddr(pieces[j], split) == Success(parts[j])
    ensures NormalizeAddrs(pieces, split) == Success(parts)
  {
    if |pieces| > 0 {
      assert forall j :: 0 <= j < |pieces| - 1 ==> pieces[1..][j] == pieces[j + 1] && parts[1..][j] == parts[j + 1];
      SetSucceeds(pieces[1..], split, parts[1..]);
      assert [parts[0]] + parts[1..] == parts;
    }
  }

  /**
   * Round trip of the flag: when every piece of `s` is a bare host (its split
   * reports a missing port) and a host joined with port 53 splits back into
   * that host and "53", `Set` accepts `s` and `String` renders it as `s`.
   */
  lemma {:induction false} BareHostsRoundTrip(s: string, split: Splitter)
    requires forall i :: 0 <= i < |SplitOn(s, ',')| ==>
      split(SplitOn(s, ',')[i]).AddrError? && Contains(split(SplitOn(s, ',')[i]).msg, MissingPort)
    requires forall i :: 0 <= i < |SplitOn(s, ',')| ==>
      split(JoinHostPort(SplitOn(s, ',')[i], DefaultPort)) == HostPort(SplitOn(s, ',')[i], DefaultPort)
    ensures NormalizeAddrs(SplitOn(s, ','), split).Success?
    ensures JoinWith(Shown(NormalizeAddrs(SplitOn(s, ','), split).value, split), ',') == s
  {
    var pieces := SplitOn(s, ',');
    var r := NormalizeAddrs(pieces, split);
    assert r.Success?;
    var shown := Shown(r.value, split);
    assert shown == pieces by {
      forall i | 0 <= i < |pieces| ensures shown[i] == pieces[i] {
        assert r.value[i] == JoinHostPort(pieces[i], DefaultPort);
      }
    }
    JoinSplit(s, ',');
  }

  const LocPrefix: string := "gochinadns/"

  /**
   * `trimLocPrefix`: the text after the first "gochinadns/" when `s` holds
   * that text, otherwise `s` itself.
   */
  function TrimLocPrefix(s: string): (r: string)
    ensures !Contains(s, LocPrefix) ==> r == s
    ensures Contains(s, LocPrefix) ==> exists i: nat ::
      && OccursAt(s, LocPrefix, i)
      && (forall j :: 0 <= j < i ==> !OccursAt(s, LocPrefix, j))
      && r == s[i + |LocPrefix|..]
  {
    match IndexOf(s, LocPrefix)
    case Some(i) => s[i + |LocPrefix|..]
    case None => s
  }

  /** Durations in nanoseconds, as Go's `time.Duration`. */
  const Millisecond: int := 1_000_000
  const Second: int := 1_000_000_000
  const MinGap: int := 100 * Millisecond
  const MaxGap: int := 16 * Second

  /**
   * The back-off loop of `runUntilCanceled`. `results[k]` says whether the
   * k-th call of `f` returned no error, for the rounds whose wait ran to its
   * end; the context is cancelled during the round after them, so `f` runs
   * once more. `waits[k]` is the wait of round k: always within
   * [100ms, 16s], exactly 100ms after a success and in the first round, and
   * otherwise the previous wait doubled, saturating at 16s.
   */
  method RunUntilCanceled(results: seq<bool>) returns (waits: seq<int>, calls: nat)
    ensures calls == |results| + 1
    ensures |waits| == |results|
    ensures forall k :: 0 <= k < |waits| ==> MinGap <= waits[k] <= MaxGap
    ensures forall k :: 0 <= k < |waits| && results[k] ==> waits[k] == MinGap
    ensures |waits| > 0 ==> waits[0] == MinGap
    ensures forall k :: 0 < k < |waits| && !results[k] ==>
      waits[k] == if 2 * waits[k - 1] > MaxGap then MaxGap else 2 * waits[k - 1]
  {
    var gap := MinGap;
    waits := [];
    calls := 0;
    var i := 0;
    while i < |results|
      invariant 0 <= i <= |results| && |waits| == i && calls == i
      invariant MinGap <= gap <= MaxGap
      invariant forall k :: 0 <= k < i ==> MinGap <= waits[k] <= MaxGap
      invariant forall k :: 0 <= k < i && results[k] ==> waits[k] == MinGap
      invariant i > 0 ==> waits[0] == MinGap
      invariant forall k :: 0 < k < i && !results[k] ==>
        waits[k] == if 2 * waits[k - 1] > MaxGap then MaxGap else 2 * waits[k - 1]
      invariant i == 0 ==> gap == MinGap
      invariant i > 0 ==> gap == if 2 * waits[i - 1] > MaxGap then MaxGap else 2 * waits[i - 1]
    {
      // err := f()
      calls := calls + 1;
      if results[i] {
        gap := MinGap;
      }
      // the wait of `gap` runs to its end
      waits := waits + [gap];
      gap := gap * 2;
      if gap > MaxGap {
        gap := MaxGap;
      }
      i := i + 1;
    }
    // the last call of `f`; the context is done before its wait ends
    calls := calls + 1;
  }
}
