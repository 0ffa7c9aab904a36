/** A row of a Beta-era MCP `classes.csv`, together with the members grouped under it. */
module McpClass {
  import opened JavaStrings
  import opened McpMember

  /** The package whose classes keep their bare obfuscated name. */
  const SRC_PACKAGE: string := "net/minecraft/src"

  class McpClass {
    var name: string
    var notch: string
    var supername: string
    var packageName: string
    var side: int
    /** The live member lists that the converter appends to. */
    var methods: seq<McpMember>
    var fields: seq<McpMember>

    /** A fresh bean: both member lists start empty. */
    constructor ()
      ensures methods == [] && fields == []
      ensures name == "" && notch == "" && supername == "" && packageName == "" && side == 0
    {
      name, notch, supername, packageName, side := "", "", "", "", 0;
      methods, fields := [], [];
    }

    function GetMethods(): seq<McpMember>
      reads this
    {
      methods
    }

    function GetFields(): seq<McpMember>
      reads this
    {
      fields
    }

    /** `getMethods().add(m)`: the list is live, so the object itself grows. */
    method AddMethod(m: McpMember)
      modifies this`methods
      ensures GetMethods() == old(GetMethods()) + [m]
    {
      methods := methods + [m];
    }

    /** `getFields().add(f)` */
    method AddField(f: McpMember)
      modifies this`fields
      ensures GetFields() == old(GetFields()) + [f]
    {
      fields := fields + [f];
    }

    function GetName(): string
      reads this
    {
      name
    }

    method SetName(n: string)
      modifies this`name
      ensures GetName() == n
    {
      name := n;
    }

    function GetNotch(): string
      reads this
    {
      notch
    }

    method SetNotch(n: string)
      modifies this`notch
      ensures GetNotch() == n
    {
      notch := n;
    }

    /**
     * The obfuscated name qualified by its package, except in the default package
     * `net/minecraft/src`, whose classes keep their bare name.
     */
    function GetFullNotch(): (r: string)
      reads this
      ensures r == notch <==> packageName == SRC_PACKAGE
      ensures |notch| <= |r| && r[|r| - |notch|..] == notch
      ensures r != notch ==> StartsWith(r, packageName + "/")
    {
      if packageName == SRC_PACKAGE then notch else packageName + "/" + notch
    }

    function GetSupername(): string
      reads this
    {
      supername
    }

    method SetSupername(s: string)
      modifies this`supername
      ensures GetSupername() == s
    {
      supername := s;
    }

    function GetPackageName(): string
      reads this
    {
      packageName
    }

    method SetPackageName(p: string)
      modifies this`packageName
      ensures GetPackageName() == p
    {
      packageName := p;
    }

    function GetSide(): int
      reads this
    {
      side
    }

    method SetSide(s: int)
      modifies this`side
      ensures GetSide() == s
    {
      side := s;
    }
  }

  /**
   * A qualified full notch name splits back at its last '/' into the package and the
   * bare notch name, provided the notch name has no '/' of its own.
   */
  lemma FullNotchSplits(c: McpClass)
    requires c.packageName != SRC_PACKAGE && '/' !in c.notch
    ensures LastIndexOf(c.GetFullNotch(), '/') == |c.packageName|
    ensures c.GetFullNotch()[..|c.packageName|] == c.packageName
    ensures c.GetFullNotch()[|c.packageName| + 1..] == c.notch
  {
    var r := c.GetFullNotch();
    var p := |c.packageName|;
    assert r == c.packageName + "/" + c.notch;
    assert r[p] == '/';
    assert r[p + 1..] == c.notch;
  }
}
