/**
 The configuration as code: linked lists of options walked node by node
 (src/cphNameVal.c:49-116), the loop over the arguments (src/cphConfig.c:121-183) and
 the lookup (src/cphConfig.c:259-287).
 */
module Config {
  import opened CommandLine

  class NameVal {
    const name: string
    const value: string
    var next: NameVal?

    constructor (name: string, value: string)
      ensures this.name == name && this.value == value && next == null
    {
      this.name, this.value, next := name, value, null;
    }
  }

  class NameValList {
    var head: NameVal?
    ghost var nodes: seq<NameVal>

    ghost predicate Valid()
      reads this, nodes
    {
      && (head == if nodes == [] then null else nodes[0])
      && (forall i :: 0 <= i < |nodes| - 1 ==> nodes[i].next == nodes[i + 1])
      && (nodes != [] ==> nodes[|nodes| - 1].next == null)
      && (forall i, j :: 0 <= i < j < |nodes| ==> nodes[i] != nodes[j])
    }

    ghost function Contents(): (s: seq<Pair>)
      reads this, nodes
      ensures |s| == |nodes|
    {
      seq(|nodes|, i requires 0 <= i < |nodes| reads this, nodes => Pair(nodes[i].name, nodes[i].value))
    }

    constructor ()
      ensures Valid() && nodes == []
    {
      head, nodes := null, [];
    }

    /** Walks to the last node and appends. */
    method Add(name: string, value: string)
      requires Valid()
      modifies this, nodes
      ensures Valid() && Contents() == old(Contents()) + [Pair(name, value)]
      ensures |nodes| == |old(nodes)| + 1 && nodes[..|old(nodes)|] == old(nodes) && fresh(nodes[|old(nodes)|])
    {
      var nv := new NameVal(name, value);
      if head == null {
        head := nv;
      } else {
        var nv1: NameVal := head;
        ghost var k := 0;
        while nv1.next != null
          invariant Valid() && k < |nodes| && nv1 == nodes[k]
          invariant k + 1 < |nodes| ==> nv1.next == nodes[k + 1]
          decreases |nodes| - k
        {
          nv1 := nv1.next;
          k := k + 1;
        }
        assert k + 1 == |nodes|;
        nv1.next := nv;
      }
      nodes := nodes + [nv];
    }

    /** The value of the first node with the name, if it fits. */
    method Get(name: string, buffer: nat) returns (found: Found)
      requires Valid() && buffer > 0
      ensures found == CommandLine.Get(Contents(), name, buffer)
    {
      var nv := head;
      ghost var k := 0;
      while nv != null
        invariant k <= |nodes| && nv == (if k < |nodes| then nodes[k] else null)
        invariant forall j :: 0 <= j < k ==> nodes[j].name != name
        decreases |nodes| - k
      {
        if nv.name == name {
          assert Contents()[k].name == name && FirstMatch(Contents(), name) == k;
          return if |nv.value| <= buffer - 1 then Value(nv.value) else TooLong;
        }
        assert k + 1 < |nodes| ==> nv.next == nodes[k + 1];
        nv := nv.next;
        k := k + 1;
      }
      assert FirstMatch(Contents(), name) == |nodes|;
      found := Missing;
    }
  }

  class Config {
    const options: NameValList
    const defaultOptions: NameValList
    var inValid: bool

    constructor ()
      ensures fresh(options) && fresh(defaultOptions) && options != defaultOptions
      ensures options.Valid() && defaultOptions.Valid() && options.nodes == [] == defaultOptions.nodes
      ensures !inValid
    {
      inValid := false;
      options := new NameValList();
      defaultOptions := new NameValList();
    }

    /** Reads the arguments after the program's name. */
    method ReadCommandLine(argv: seq<string>)
      requires argv != [] && options.Valid() && options.nodes == []
      modifies options
      ensures options.Valid() && options.Contents() == Parse(argv[1..])
      ensures forall k :: 0 <= k < |options.nodes| ==> fresh(options.nodes[k])
    {
      hide IsOption;
      var args := argv[1..];
      var key, value, i := "", UNSPECIFIED, 0;
      while i < |args|
        invariant i <= |args| && options.Valid() && forall k :: 0 <= k < |options.nodes| ==> fresh(options.nodes[k])
        invariant Scan(key, value, options.Contents()) == Scanned(AT_START, args[..i])
      {
        assert args[..i + 1][..i] == args[..i];
        var arg := args[i];
        if IsOption(arg) {
          AddIfKey(key, value);
          key, value := OptionKey(arg), UNSPECIFIED;
        } else if value == UNSPECIFIED {
          value := arg;
        } else {
          value := value + " " + arg;
        }
        i := i + 1;
      }
      assert args[..i] == args;
      AddIfKey(key, value);
    }

    function OptionKey(arg: string): (key: string)
      requires IsOption(arg)
      ensures key == arg[1..]
    {
      arg[1..]
    }

    method AddIfKey(key: string, value: string)
      requires options.Valid()
      modifies options, options.nodes
      ensures options.Valid() && options.Contents() == Scan(key, value, old(options.Contents())).Added()
      ensures |options.nodes| >= |old(options.nodes)| && options.nodes[..|old(options.nodes)|] == old(options.nodes)
      ensures forall k :: |old(options.nodes)| <= k < |options.nodes| ==> fresh(options.nodes[k])
    {
      if key != "" {
        options.Add(key, value);
      }
    }

    /** A name that is found nowhere marks the configuration as invalid. */
    method GetString(name: string, buffer: nat) returns (found: Found)
      requires options.Valid() && defaultOptions.Valid() && buffer > 0
      modifies this`inValid
      ensures found == Lookup(options.Contents(), defaultOptions.Contents(), name, buffer)
      ensures inValid <==> old(inValid) || found.Missing?
    {
      found := options.Get(name, buffer);
      if found.Missing? {
        found := defaultOptions.Get(name, buffer);
      }
      if found.Value? && found.value == UNSPECIFIED {
        found := Value("");
      }
      if found.Missing? {
        inValid := true;
      }
    }
  }
}
