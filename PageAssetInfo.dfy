/** Page identity: the asset key of a page and the optional package it lives in.
    `PageAssetInfo` is a sealed class whose two fields are set once by the constructor,
    so it is a class with `const` fields here: reference identity (C# `ReferenceEquals`)
    is Dafny's `==` on `PageAssetInfo?`, and a C# null is `null`. */
module AssetInfo {
  import opened Wrappers

  /** The exception the constructor throws for a missing argument. */
  datatype ArgumentError = ArgumentNull(paramName: string)

  /** The text C# string interpolation produces for a possibly-null string. */
  function Text(s: Option<string>): string {
    if s.Some? then s.value else ""
  }

  /** Value equality on the two fields, as the equality members compare them. */
  predicate SameFields(a: PageAssetInfo, b: PageAssetInfo) {
    a.addressKey == b.addressKey && a.package == b.package
  }

  class PageAssetInfo {
    /** Required: the asset key or path. */
    const addressKey: string
    /** Optional: the package name (null when absent). */
    const package: Option<string>

    /** Allocation with both fields given; the null check is done by `Create`. */
    constructor (addressKey: string, package: Option<string>)
      ensures this.addressKey == addressKey && this.package == package
    {
      this.addressKey := addressKey;
      this.package := package;
    }

    /** The C# constructor: a null `addressKey` throws, `package` defaults to null. */
    static method Create(addressKey: Option<string>, package: Option<string> := None)
      returns (r: Result<PageAssetInfo, ArgumentError>)
      ensures r.Failure? <==> addressKey.None?
      ensures r.Failure? ==> r.error == ArgumentNull("addressKey")
      ensures r.Success? ==> fresh(r.value)
                             && r.value.addressKey == addressKey.value
                             && r.value.package == package
    {
      if addressKey.None? {
        return Failure(ArgumentNull("addressKey"));
      }
      var info := new PageAssetInfo(addressKey.value, package);
      return Success(info);
    }

    /** `Path`: the asset key. */
    function Path(): (r: string)
      ensures r == addressKey
    {
      addressKey
    }

    /** `ToString`: the package text, a colon, then the asset key. */
    function ToString(): (r: string)
      ensures |r| == |Text(package)| + 1 + |Path()|
      ensures r[..|Text(package)|] == Text(package)
      ensures r[|Text(package)|] == ':'
      ensures r[|Text(package)| + 1..] == Path()
    {
      Text(package) + ":" + addressKey
    }

    /** `GetHashCode`: the combination of the two fields; the combining function
        (`HashCode.Combine`) is a parameter. */
    function GetHashCode(combine: (string, Option<string>) -> int): (r: int)
      ensures r == combine(addressKey, package)
    {
      combine(addressKey, package)
    }

    /** `Equals(object)`: true only for a `PageAssetInfo` with the same fields. */
    function Equals(obj: object?): (r: bool)
      ensures obj is PageAssetInfo ==> (r <==> OpEquals(this, obj as PageAssetInfo))
      ensures !(obj is PageAssetInfo) ==> !r
    {
      if obj is PageAssetInfo then
        var other := obj as PageAssetInfo;
        addressKey == other.addressKey && package == other.package
      else
        false
    }

    /** `operator ==`: the same reference, or two non-null values with equal fields. */
    static function OpEquals(lhs: PageAssetInfo?, rhs: PageAssetInfo?): (r: bool)
      ensures r <==> (lhs == null && rhs == null)
                     || (lhs != null && rhs != null && SameFields(lhs, rhs))
    {
      if lhs == rhs then true
      else if lhs == null || rhs == null then false
      else lhs.addressKey == rhs.addressKey && lhs.package == rhs.package
    }

    /** `operator !=`, written out on its own in the source. */
    static function OpNotEquals(lhs: PageAssetInfo?, rhs: PageAssetInfo?): (r: bool)
      ensures r == !OpEquals(lhs, rhs)
    {
      if lhs == rhs then false
      else if lhs == null || rhs == null then true
      else lhs.addressKey != rhs.addressKey || lhs.package != rhs.package
    }
  }

  /** `operator ==` is an equivalence relation on `PageAssetInfo?`, null included. */
  lemma OpEqualsIsEquivalence(a: PageAssetInfo?, b: PageAssetInfo?, c: PageAssetInfo?)
    ensures PageAssetInfo.OpEquals(a, a)
    ensures PageAssetInfo.OpEquals(a, b) == PageAssetInfo.OpEquals(b, a)
    ensures PageAssetInfo.OpEquals(a, b) && PageAssetInfo.OpEquals(b, c) ==> PageAssetInfo.OpEquals(a, c)
  {
  }

  /** Values that are equal have the same hash code, whatever the combining function. */
  lemma EqualValuesHashEqually(a: PageAssetInfo, b: PageAssetInfo, combine: (string, Option<string>) -> int)
    requires a.Equals(b)
    ensures a.GetHashCode(combine) == b.GetHashCode(combine)
  {
  }

  /** `ToString` loses nothing when neither package text contains a colon: equal strings
      come from equal package texts and equal asset keys. */
  lemma ToStringDeterminesFields(a: PageAssetInfo, b: PageAssetInfo)
    requires ':' !in Text(a.package) && ':' !in Text(b.package)
    requires a.ToString() == b.ToString()
    ensures Text(a.package) == Text(b.package) && a.Path() == b.Path()
  {
  }
}
