/** Proxy nodes and their bag of Clash fields (internal/proxy/proxy.go). */
module Values {
  /** What Go's `any` holds in a field bag: YAML, JSON and parser values. */
  datatype Value =
    | Nil
    | Str(s: string)
    | Int(n: int)
    | Float(x: real)
    | Bool(b: bool)
    | Map(m: map<string, Value>)
    | Strs(ss: seq<string>)
    | Ints(ns: seq<int>)
    | List(items: seq<Value>)

  type Fields = map<string, Value>

  /** Below a million a whole float is printed as its digits, above it with an exponent. */
  predicate PrintsAsInt(x: real) { x == x.Floor as real && -1000000.0 < x < 1000000.0 }

  /**
    A value as a rendered document shows it: a typed list looks like any list, and a small whole
    float like an integer.
   */
  function Plain(v: Value): Value
  {
    match v
    case Float(x) => if PrintsAsInt(x) then Int(x.Floor) else v
    case Ints(ns) => List(seq(|ns|, i requires 0 <= i < |ns| => Int(ns[i])))
    case Strs(ss) => List(seq(|ss|, i requires 0 <= i < |ss| => Str(ss[i])))
    case Map(m) => Map(map k | k in m :: Plain(m[k]))
    case List(items) => List(seq(|items|, i requires 0 <= i < |items| => Plain(items[i])))
    case _ => v
  }

  function PlainFields(m: Fields): Fields { map k | k in m :: Plain(m[k]) }

  /** A snapshot of a node. */
  datatype Node = Node(name: string, typ: string, server: string, port: int, clash: Fields) {
    /** Rename keeps the promoted name and the bag in step. */
    function Renamed(newName: string): Node
    {
      this.(name := newName, clash := clash["name" := Str(newName)])
    }

    predicate InStep() { "name" in clash && clash["name"] == Str(name) }
  }

  function Seed(typ: string, name: string, server: string, port: int): Fields
  {
    map["name" := Str(name), "type" := Str(typ), "server" := Str(server), "port" := Int(port)]
  }

  /** Set skips the empty string and nil. */
  function With(clash: Fields, key: string, v: Value): Fields
  {
    if v == Str("") || v == Nil then clash else clash[key := v]
  }

  class Proxy {
    var Name: string
    var Type: string
    var Server: string
    var Port: int
    var Clash: Fields

    ghost function View(): Node
      reads this
    {
      Node(Name, Type, Server, Port, Clash)
    }

    constructor (typ: string, name: string, server: string, port: int)
      ensures View() == Node(name, typ, server, port, Seed(typ, name, server, port))
    {
      Name := name;
      Type := typ;
      Server := server;
      Port := port;
      Clash := map["name" := Str(name), "type" := Str(typ), "server" := Str(server), "port" := Int(port)];
    }

    /** A node filled in field by field. */
    constructor Of(n: Node)
      ensures View() == n
    {
      Name := n.name;
      Type := n.typ;
      Server := n.server;
      Port := n.port;
      Clash := n.clash;
    }

    method Rename(name: string)
      modifies this`Name, this`Clash
      ensures View() == old(View()).Renamed(name)
    {
      Name := name;
      Clash := Clash["name" := Str(name)];
    }

    method Set(key: string, v: Value)
      modifies this`Clash
      ensures Clash == With(old(Clash), key, v)
    {
      match v {
        case Str(t) =>
          if t == "" { return; }
        case Nil => return;
        case _ =>
      }
      Clash := Clash[key := v];
    }

    method SetRaw(key: string, v: Value)
      modifies this`Clash
      ensures Clash == old(Clash)[key := v]
    {
      Clash := Clash[key := v];
    }
  }
}
