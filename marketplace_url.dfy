/**
 * The path check of `get_contract_address_from_magic_eden`: a listing path of
 * the form `mint-terminal/monad-testnet/<address>[/...]`. URL parsing itself is
 * not modelled (the function receives the parsed path), and `is_address` /
 * `to_checksum_address` are parameters.
 */
module MarketplaceUrl {
  import opened Wrappers

  const SLASH: char := '/'
  const MINT_TERMINAL: string := "mint-terminal"
  const NETWORK: string := "monad-testnet"

  /** The two errors raised inside the `try`; the handler re-raises each with a common prefix. */
  datatype UrlError = UnsupportedFormat | InvalidAddress

  /** `s.lstrip(c)`: drop every leading `c`. */
  function StripLeft(s: string, c: char): (r: string)
    ensures |r| <= |s| && r == s[|s| - |r|..]
    ensures forall i :: 0 <= i < |s| - |r| ==> s[i] == c
    ensures r == [] || r[0] != c
  {
    if s != [] && s[0] == c then StripLeft(s[1..], c) else s
  }

  /** `s.rstrip(c)`: drop every trailing `c`. */
  function StripRight(s: string, c: char): (r: string)
    ensures |r| <= |s| && r == s[..|r|]
    ensures forall i :: |r| <= i < |s| ==> s[i] == c
    ensures r == [] || r[|r| - 1] != c
  {
    if s != [] && s[|s| - 1] == c then StripRight(s[..|s| - 1], c) else s
  }

  /** `s.strip(c)`: the middle of `s` between its leading and trailing runs of `c`. */
  function Strip(s: string, c: char): (r: string)
    ensures |r| <= |s|
    ensures r == [] || (r[0] != c && r[|r| - 1] != c)
    ensures var i := |s| - |StripLeft(s, c)|;
      && i + |r| <= |s|
      && r == s[i..i + |r|]
      && (forall k :: 0 <= k < i ==> s[k] == c)
      && (forall k :: i + |r| <= k < |s| ==> s[k] == c)
  {
    var left := StripLeft(s, c);
    var r := StripRight(left, c);
    var i := |s| - |left|;
    assert left == s[i..];
    assert r == s[i..i + |r|];
    forall k | i + |r| <= k < |s|
      ensures s[k] == c
    {
      assert s[k] == left[k - i];
    }
    r
  }

  function IndexOf(s: string, c: char): (i: nat)
    requires c in s
    ensures i < |s| && s[i] == c && c !in s[..i]
  {
    if s[0] == c then 0 else 1 + IndexOf(s[1..], c)
  }

  /** The pieces joined back with the separator between them. */
  function Join(parts: seq<string>, sep: char): string
    requires |parts| >= 1
  {
    if |parts| == 1 then parts[0] else parts[0] + [sep] + Join(parts[1..], sep)
  }

  /** Python's `s.split(sep)`: never empty, pieces free of `sep`, joining them gives `s` back. */
  function Split(s: string, sep: char): (parts: seq<string>)
    ensures |parts| >= 1
    ensures forall k :: 0 <= k < |parts| ==> sep !in parts[k]
    ensures Join(parts, sep) == s
    decreases |s|
  {
    if sep !in s then [s]
    else
      var i := IndexOf(s, sep);
      var parts := [s[..i]] + Split(s[i + 1..], sep);
      assert parts[1..] == Split(s[i + 1..], sep);
      assert s == s[..i] + [sep] + s[i + 1..];
      parts
  }

  /** Splitting undoes joining, as long as no piece holds the separator. */
  lemma {:induction false} SplitJoin(parts: seq<string>, sep: char)
    requires |parts| >= 1
    requires forall k :: 0 <= k < |parts| ==> sep !in parts[k]
    ensures Split(Join(parts, sep), sep) == parts
  {
    if |parts| > 1 {
      var p := parts[0];
      var s := Join(parts, sep);
      assert s == p + [sep] + Join(parts[1..], sep);
      assert s[|p|] == sep;
      var i := IndexOf(s, sep);
      assert s[..i] == p;
      assert s[i + 1..] == Join(parts[1..], sep);
      SplitJoin(parts[1..], sep);
    }
  }

  lemma {:induction false} JoinAppend(a: seq<string>, b: seq<string>, sep: char)
    requires |a| >= 1 && |b| >= 1
    ensures Join(a + b, sep) == Join(a, sep) + [sep] + Join(b, sep)
  {
    if |a| > 1 {
      assert (a + b)[1..] == a[1..] + b;
      JoinAppend(a[1..], b, sep);
    } else {
      assert (a + b)[1..] == b;
    }
  }

  /** What follows a separator splits on its own: `"a/b".split('/')` is `a.split('/') + b.split('/')`. */
  lemma SplitAppend(a: string, b: string, sep: char)
    ensures Split(a + [sep] + b, sep) == Split(a, sep) + Split(b, sep)
  {
    var parts := Split(a, sep) + Split(b, sep);
    JoinAppend(Split(a, sep), Split(b, sep), sep);
    SplitJoin(parts, sep);
  }

  /** Lines 42-49 on the list of path segments. */
  function ContractFromSegments(parts: seq<string>, isAddress: string -> bool,
                                checksum: string -> string): (r: Result<string, UrlError>)
    ensures r.Success? <==>
      |parts| >= 3 && parts[0] == MINT_TERMINAL && parts[1] == NETWORK && isAddress(parts[2])
    ensures r.Success? ==> r.value == checksum(parts[2])
    ensures r == Failure(InvalidAddress) <==>
      |parts| >= 3 && parts[0] == MINT_TERMINAL && parts[1] == NETWORK && !isAddress(parts[2])
    ensures r.Failure? ==> r.error == InvalidAddress || r.error == UnsupportedFormat
  {
    if |parts| >= 3 && parts[0] == MINT_TERMINAL && parts[1] == NETWORK then
      if isAddress(parts[2]) then Success(checksum(parts[2])) else Failure(InvalidAddress)
    else Failure(UnsupportedFormat)
  }

  /** `get_contract_address_from_magic_eden` after `urlparse`: strip the slashes, split, check. */
  function ContractFromPath(path: string, isAddress: string -> bool,
                            checksum: string -> string): (r: Result<string, UrlError>)
    ensures r.Success? ==>
      var p := Strip(path, SLASH);
      var n := |MINT_TERMINAL| + 1 + |NETWORK| + 1;
      && |p| >= n
      && p[..|MINT_TERMINAL|] == MINT_TERMINAL
      && p[|MINT_TERMINAL|] == SLASH
      && p[|MINT_TERMINAL| + 1..n - 1] == NETWORK
      && p[n - 1] == SLASH
  {
    var parts := Split(Strip(path, SLASH), SLASH);
    var r := ContractFromSegments(parts, isAddress, checksum);
    if r.Success? then
      assert Strip(path, SLASH) == parts[0] + [SLASH] + (parts[1] + [SLASH] + Join(parts[2..], SLASH));
      r
    else r
  }

  /** Segments after the address are never looked at. */
  lemma ExtraSegmentsIgnored(parts: seq<string>, more: seq<string>, isAddress: string -> bool,
                             checksum: string -> string)
    requires |parts| >= 3
    ensures ContractFromSegments(parts + more, isAddress, checksum)
         == ContractFromSegments(parts, isAddress, checksum)
  {
    assert (parts + more)[..3] == parts[..3];
  }

  /** A path that already has no slash at either end is what gets split. */
  lemma StripUnchanged(s: string, c: char)
    requires s != [] && s[0] != c && s[|s| - 1] != c
    ensures Strip(s, c) == s
  {
  }

  /** Appending further segments to an accepted or rejected path changes nothing. */
  lemma TrailingSegmentsIgnored(path: string, extra: string, isAddress: string -> bool,
                                checksum: string -> string)
    requires path != [] && path[0] != SLASH && path[|path| - 1] != SLASH
    requires extra != [] && extra[|extra| - 1] != SLASH
    requires |Split(path, SLASH)| >= 3
    ensures ContractFromPath(path + [SLASH] + extra, isAddress, checksum)
         == ContractFromPath(path, isAddress, checksum)
  {
    var full := path + [SLASH] + extra;
    StripUnchanged(path, SLASH);
    StripUnchanged(full, SLASH);
    SplitAppend(path, extra, SLASH);
    ExtraSegmentsIgnored(Split(path, SLASH), Split(extra, SLASH), isAddress, checksum);
  }

  /** The last character of a join is that of the last piece. */
  lemma {:induction false} JoinLast(parts: seq<string>, sep: char)
    requires |parts| >= 1 && parts[|parts| - 1] != []
    ensures Join(parts, sep) != []
    ensures Join(parts, sep)[|Join(parts, sep)| - 1] == parts[|parts| - 1][|parts[|parts| - 1]| - 1]
  {
    if |parts| > 1 {
      JoinLast(parts[1..], sep);
    }
  }

  /** A path `/seg0/seg1/...` whose end segments are non-empty is checked segment by segment. */
  lemma {:induction false} SlashPathChecked(parts: seq<string>, isAddress: string -> bool,
                                            checksum: string -> string)
    requires |parts| >= 1 && parts[0] != [] && parts[|parts| - 1] != []
    requires forall k :: 0 <= k < |parts| ==> SLASH !in parts[k]
    ensures ContractFromPath([SLASH] + Join(parts, SLASH), isAddress, checksum)
         == ContractFromSegments(parts, isAddress, checksum)
  {
    var inner := Join(parts, SLASH);
    JoinLast(parts, SLASH);
    assert inner[0] == parts[0][0];
    assert StripLeft([SLASH] + inner, SLASH) == StripLeft(inner, SLASH) by {
      assert ([SLASH] + inner)[1..] == inner;
    }
    StripUnchanged(inner, SLASH);
    SplitJoin(parts, SLASH);
  }

  /** The listing path `/mint-terminal/monad-testnet/<address>` yields the checksummed address. */
  lemma ListingPathAccepted(address: string, isAddress: string -> bool, checksum: string -> string)
    requires address != [] && SLASH !in address
    ensures ContractFromPath([SLASH] + Join([MINT_TERMINAL, NETWORK, address], SLASH), isAddress, checksum)
         == if isAddress(address) then Success(checksum(address)) else Failure(InvalidAddress)
  {
    SlashPathChecked([MINT_TERMINAL, NETWORK, address], isAddress, checksum);
  }

  /** Without an address the trailing slash is stripped away and the format check fails. */
  lemma EmptyAddressIsFormatError(isAddress: string -> bool, checksum: string -> string)
    ensures ContractFromPath("/" + MINT_TERMINAL + "/" + NETWORK + "/", isAddress, checksum)
         == Failure(UnsupportedFormat)
  {
  }
}
