/** Parameter naming: a new parameter is called `p` followed by the number of
    parameters already registered, written in decimal. */
module ParameterNaming {
  import opened CypherTypes

  predicate IsDigit(c: char) {
    '0' <= c <= '9'
  }

  predicate AllDigits(s: string) {
    forall i :: 0 <= i < |s| ==> IsDigit(s[i])
  }

  function Digit(d: nat): (c: char)
    requires d < 10
    ensures IsDigit(c) && c as int - '0' as int == d
  {
    ('0' as int + d) as char
  }

  /** The decimal text of `n`, as `string.Format("{0}", n)` writes a
      non-negative count: at least one digit and no leading zero. */
  function NatToString(n: nat): (s: string)
    ensures |s| >= 1 && AllDigits(s)
    ensures s[0] == '0' ==> n == 0
    decreases n
  {
    if n < 10 then [Digit(n)] else NatToString(n / 10) + [Digit(n % 10)]
  }

  /** The number a string of decimal digits denotes: the reading back of
      `NatToString`. */
  function DecimalValue(s: string): nat
    requires AllDigits(s)
  {
    if s == [] then 0 else 10 * DecimalValue(s[..|s| - 1]) + (s[|s| - 1] as int - '0' as int)
  }

  lemma {:induction false} DecimalRoundTrip(n: nat)
    ensures DecimalValue(NatToString(n)) == n
  {
    if n >= 10 {
      var s := NatToString(n);
      assert s[..|s| - 1] == NatToString(n / 10);
      DecimalRoundTrip(n / 10);
    }
  }

  /** The name of the parameter created when `count` parameters exist:
      `p` and then the count, which can be read back from the name. */
  function ParamName(count: nat): (name: string)
    ensures |name| >= 2 && name[0] == 'p' && AllDigits(name[1..])
    ensures DecimalValue(name[1..]) == count
  {
    DecimalRoundTrip(count);
    assert ("p" + NatToString(count))[1..] == NatToString(count);
    "p" + NatToString(count)
  }

  /** Distinct counts give distinct names. */
  lemma ParamNameInjective(i: nat, j: nat)
    ensures ParamName(i) == ParamName(j) <==> i == j
  {
  }

  /** The token that stands for a parameter in clause text. */
  function Placeholder(name: string): (token: string)
    ensures |token| == |name| + 2 && token[0] == '{' && token[|token| - 1] == '}'
    ensures token[1..|token| - 1] == name
  {
    "{" + name + "}"
  }

  /** The names of the first n parameters: p0 .. p(n-1). */
  function Names(n: nat): (names: set<string>)
    decreases n
  {
    if n == 0 then {} else Names(n - 1) + {ParamName(n - 1)}
  }

  /** Every name among the first n has a suffix below n. */
  lemma {:induction false} NamesBelow(n: nat, name: string)
    requires name in Names(n)
    ensures |name| >= 2 && name[0] == 'p' && AllDigits(name[1..])
    ensures DecimalValue(name[1..]) < n
  {
    if name != ParamName(n - 1) {
      NamesBelow(n - 1, name);
    }
  }

  /** The first n names are pairwise distinct: there are exactly n of them. */
  lemma {:induction false} NamesDistinct(n: nat)
    ensures |Names(n)| == n
  {
    if n > 0 {
      NamesDistinct(n - 1);
      if ParamName(n - 1) in Names(n - 1) {
        NamesBelow(n - 1, ParamName(n - 1));
      }
    }
  }

  /** A parameter map built from empty only by `CreateParameter`: its keys
      are exactly p0 .. p(n-1), where n is its size. */
  ghost predicate Sequential(ps: map<string, Value>) {
    ps.Keys == Names(|ps|)
  }

  /** What `CreateParameter` leaves behind when `Dictionary.Add` succeeds:
      the grown map and the placeholder it returns. */
  datatype Registered = Registered(params: map<string, Value>, placeholder: string)

  /** `CreateParameter` on a map: bind `p<count>` to `v`, or fail as
      `Dictionary.Add` does when that name is already taken. */
  function Register(ps: map<string, Value>, v: Value): (r: Result<Registered>)
    ensures r.Ok? <==> ParamName(|ps|) !in ps
    ensures r.Err? ==> r.error == DuplicateParameter(ParamName(|ps|))
    ensures r.Ok? ==> |r.value.params| == |ps| + 1
    ensures r.Ok? ==> forall k :: k in ps ==> k in r.value.params && r.value.params[k] == ps[k]
    ensures r.Ok? ==> r.value.params.Keys == ps.Keys + {ParamName(|ps|)}
    ensures r.Ok? ==> r.value.params[ParamName(|ps|)] == v && r.value.placeholder == Placeholder(ParamName(|ps|))
  {
    var name := ParamName(|ps|);
    if name in ps then Err(DuplicateParameter(name))
    else Ok(Registered(ps[name := v], Placeholder(name)))
  }

  /** In a sequential map the next name is free, so `Dictionary.Add` cannot throw. */
  lemma SequentialNextNameFree(ps: map<string, Value>)
    requires Sequential(ps)
    ensures ParamName(|ps|) !in ps
  {
    if ParamName(|ps|) in ps {
      NamesBelow(|ps|, ParamName(|ps|));
    }
  }

  /** Registering a parameter keeps a sequential map sequential. */
  lemma SequentialRegister(ps: map<string, Value>, v: Value)
    requires Sequential(ps)
    ensures Register(ps, v).Ok? && Sequential(Register(ps, v).value.params)
  {
    SequentialNextNameFree(ps);
  }

  /** Every key of a sequential map of size n is `p` followed by a number
      below n: the name the next parameter gets has a larger suffix than
      all names created before it. */
  lemma SequentialKeyShape(ps: map<string, Value>, key: string)
    requires Sequential(ps) && key in ps
    ensures |key| >= 2 && key[0] == 'p' && AllDigits(key[1..])
    ensures DecimalValue(key[1..]) < |ps|
  {
    NamesBelow(|ps|, key);
  }
}
