/** The two .NET library classes the builder keeps its state in, reduced to
    the members it calls. */
module Platform {
  import opened CypherTypes

  /** `System.Text.StringBuilder`: a growable character buffer. */
  class StringBuilder {
    var chars: seq<char>

    /** `new StringBuilder(value)` */
    constructor (value: string)
      ensures chars == value
    {
      chars := value;
    }

    function ToString(): (s: string)
      reads this
      ensures s == chars
    {
      chars
    }

    /** `Append(value)`, and `AppendFormat` once its format is filled in. */
    method Append(value: string)
      modifies this
      ensures chars == old(chars) + value
    {
      chars := chars + value;
    }

    /** `AppendLine()` */
    method AppendLine()
      modifies this
      ensures chars == old(chars) + NewLine
    {
      chars := chars + NewLine;
    }
  }

  /** `Dictionary<string, object>` holding the query parameters. */
  class ParameterDictionary {
    var entries: map<string, Value>

    /** `new Dictionary<string, object>()` */
    constructor ()
      ensures entries == map[]
    {
      entries := map[];
    }

    /** `new Dictionary<string, object>(other)`: a copy of the bindings. */
    constructor Copy(other: ParameterDictionary)
      ensures entries == other.entries
    {
      entries := other.entries;
    }

    function Count(): (n: nat)
      reads this
      ensures n == |entries|
    {
      |entries|
    }

    /** `Add(key, value)`. Returns false where .NET throws
        `ArgumentException` because `key` is already present, and then
        leaves the dictionary as it was. */
    method Add(key: string, value: Value) returns (added: bool)
      modifies this
      ensures added <==> key !in old(entries)
      ensures entries == if added then old(entries)[key := value] else old(entries)
    {
      added := key !in entries;
      if added {
        entries := entries[key := value];
      }
    }
  }
}
