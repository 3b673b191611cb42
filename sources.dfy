/**
 * The property-source vocabulary of the configuration framework, as the fallback
 * initializer sees it: named sources that are either a flat key/value map, a
 * composite of ordered child sources, or some other kind whose contents the
 * initializer never inspects; the locators registered for bootstrap; and the
 * environment's mutable, ordered list of sources.
 */
module Sources {
  import opened Wrappers

  /** A property value held by a map source: text, integers, booleans, or a null reference. */
  datatype Value = Text(s: string) | Integer(i: int) | Boolean(b: bool) | Null

  /** A named property source; the constructor stands for the framework class it is an instance of. */
  datatype Source =
    | MapSource(name: string, props: map<string, Value>)
    | Composite(name: string, children: seq<Source>)
    | Other(name: string)

  /** A registered property-source locator: the config-server client's, or any other. */
  datatype Locator = ConfigServiceLocator | OtherLocator(kind: string)

  /**
   * The position of the first source called `name`, as the framework's named
   * lookup (`contains`, `get`) finds it.
   */
  function IndexOfName(ss: seq<Source>, name: string): (r: Option<nat>)
    ensures r.Some? ==> r.value < |ss| && ss[r.value].name == name
    ensures r.Some? ==> forall i :: 0 <= i < r.value ==> ss[i].name != name
    ensures r.None? ==> forall i :: 0 <= i < |ss| ==> ss[i].name != name
  {
    if ss == [] then None
    else if ss[0].name == name then Some(0)
    else match IndexOfName(ss[1..], name)
      case None => None
      case Some(j) => Some(j + 1)
  }

  /** `i` is the position of the first source called `name`. */
  ghost predicate FirstNamed(ss: seq<Source>, i: int, name: string)
  {
    0 <= i < |ss| && ss[i].name == name && forall k :: 0 <= k < i ==> ss[k].name != name
  }

  /**
   * The raw value the environment's sources hold for `key`, before placeholder
   * expansion: that of the first source, in list order, whose value for it is
   * not null; a composite answers from its children in their order, also
   * passing over null values. Sources of other kinds are treated as holding
   * nothing.
   */
  function Resolve(ss: seq<Source>, key: string): Option<Value>
    decreases ss
  {
    if ss == [] then None
    else match ss[0]
      case MapSource(_, props) =>
        if key in props && props[key] != Null then Some(props[key]) else Resolve(ss[1..], key)
      case Composite(_, children) =>
        var inner := Resolve(children, key);
        if inner.Some? then inner else Resolve(ss[1..], key)
      case Other(_) => Resolve(ss[1..], key)
  }

  /** Decimal rendering of a natural number. */
  function NatToDecimal(n: nat): string
    decreases n
  {
    var digit := "0123456789"[n % 10];
    if n < 10 then [digit] else NatToDecimal(n / 10) + [digit]
  }

  /** `String.valueOf` of a value: its `toString`, and "null" for a null reference. */
  function ValueOf(v: Value): string
  {
    match v
    case Text(s) => s
    case Integer(i) => if i < 0 then "-" + NatToDecimal(-i) else NatToDecimal(i)
    case Boolean(b) => if b then "true" else "false"
    case Null => "null"
  }

  /** The environment's ordered list of property sources; earlier sources take precedence. */
  class MutablePropertySources {
    var sources: seq<Source>

    constructor (initial: seq<Source>)
      ensures sources == initial
    {
      sources := initial;
    }

    /** Whether some source is called `name`. */
    function Contains(name: string): bool
      reads this
    {
      IndexOfName(sources, name).Some?
    }

    /** The first source called `name`, if any. */
    function Get(name: string): (r: Option<Source>)
      reads this
      ensures r.Some? <==> Contains(name)
      ensures r.Some? ==> exists i :: FirstNamed(sources, i, name) && r.value == sources[i]
    {
      match IndexOfName(sources, name)
      case None => None
      case Some(i) => Some(sources[i])
    }

    /** Makes `s` the source of highest precedence; names are assumed unique, so this is a prepend. */
    method AddFirst(s: Source)
      modifies this
      ensures sources == [s] + old(sources)
    {
      sources := [s] + sources;
    }
  }
}
