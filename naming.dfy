/** Chain naming: the length-limited names under which chains reach the
    kernel's filtering tables. */
module ChainNaming {

  /** Longest chain name the filtering tables accept. */
  const MaxChainLen: nat := 28

  /** Longest logical name kept for a wrapped chain, so that
      `<binary name>-<chain>` still fits in MaxChainLen. */
  const MaxWrappedChainLen: nat := 11

  /** Longest prefix of the binary name put in front of wrapped chains. */
  const MaxBinaryNameLen: nat := 16

  function Min(a: nat, b: nat): nat {
    if a <= b then a else b
  }

  /** Python's slice `s[:n]`: the whole string when it is shorter than `n`. */
  function Prefix(s: string, n: nat): (r: string)
    ensures r <= s
    ensures |r| == Min(|s|, n)
  {
    s[..Min(|s|, n)]
  }

  /** The length a stored chain name is cut to. */
  function ChainLimit(wrap: bool): nat {
    if wrap then MaxWrappedChainLen else MaxChainLen
  }

  /** `get_chain_name`: the name under which a chain is stored and looked up.
      It is the longest prefix of `name` that fits the limit for its kind. */
  function GetChainName(name: string, wrap: bool): (r: string)
    ensures r <= name
    ensures |r| == Min(|name|, ChainLimit(wrap))
    ensures |r| <= MaxChainLen
  {
    Prefix(name, ChainLimit(wrap))
  }

  /** The binary name as it is put in front of wrapped chains. */
  function WrapName(binaryName: string): (r: string)
    ensures r <= binaryName
    ensures |r| == Min(|binaryName|, MaxBinaryNameLen)
  {
    Prefix(binaryName, MaxBinaryNameLen)
  }

  /** The name the kernel sees for the wrapped chain `chain`. */
  function WrappedChainName(wrapName: string, chain: string): string {
    wrapName + "-" + chain
  }

  /** A name that already fits is stored as it is. */
  lemma ShortNameKept(name: string, wrap: bool)
    requires |name| <= ChainLimit(wrap)
    ensures GetChainName(name, wrap) == name
  {
    assert name[..|name|] == name;
  }

  /** Cutting a name twice is cutting it once. */
  lemma GetChainNameIdempotent(name: string, wrap: bool)
    ensures GetChainName(GetChainName(name, wrap), wrap) == GetChainName(name, wrap)
  {
  }

  /** A wrapped chain never exceeds the kernel's limit, however long the
      binary name and the logical name are: 16 + 1 + 11 = 28. */
  lemma WrappedChainNameFits(binaryName: string, name: string)
    ensures |WrappedChainName(WrapName(binaryName), GetChainName(name, true))| <= MaxChainLen
  {
  }

  /** Under one binary name, distinct stored chains get distinct kernel names. */
  lemma WrappedChainNameInjective(wrapName: string, a: string, b: string)
    requires WrappedChainName(wrapName, a) == WrappedChainName(wrapName, b)
    ensures a == b
  {
    var n := |wrapName| + 1;
    assert a == WrappedChainName(wrapName, a)[n..];
    assert b == WrappedChainName(wrapName, b)[n..];
  }

  /** The binary name reaches a wrapped chain only as its first 16
      characters: the kernel name starts with exactly that prefix. */
  lemma WrappedChainNameUsesPrefix(binaryName: string, name: string)
    ensures var w := WrappedChainName(WrapName(binaryName), GetChainName(name, true));
            && w[..Min(|binaryName|, MaxBinaryNameLen)] == binaryName[..Min(|binaryName|, MaxBinaryNameLen)]
            && w[Min(|binaryName|, MaxBinaryNameLen)] == '-'
  {
  }

  /** `get_chain_name` applied to fifty digits, as in the chain-name test. */
  lemma GetChainNameExample()
    ensures var name := "0123456789" + "0123456789" + "0123456789" + "0123456789" + "0123456789";
            && GetChainName(name, false) == "0123456789012345678901234567"
            && GetChainName(name, true) == "01234567890"
  {
    var name := "0123456789" + "0123456789" + "0123456789" + "0123456789" + "0123456789";
    assert GetChainName(name, false) == name[..28];
    assert GetChainName(name, true) == name[..11];
  }

  /** The custom binary name of the tests, thirty characters, is cut to sixteen. */
  lemma WrapNameExample()
    ensures WrapName("abcdef" + "abcdef" + "abcdef" + "abcdef" + "abcdef") == "abcdefabcdefabcd"
  {
    var bn := "abcdef" + "abcdef" + "abcdef" + "abcdef" + "abcdef";
    assert WrapName(bn) == bn[..16];
  }
}
