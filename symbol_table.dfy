/**
 The symbol-table emitter (`testBuildLayoutToolSymbols`): the Swift source text
 that records, per class, its layout properties and their types. The text is
 specified through its structure: one block per class, in ascending name order,
 each holding the available properties in ascending name order.
 */
module SymbolTable {
  import opened Text
  import opened Catalog

  /** One `"prop": "type",` line. */
  datatype Entry = Entry(prop: string, desc: Desc)

  /** One `symbols["name"] = [...]` statement; `isEmpty` selects the `[:]` form. */
  datatype Block = Block(name: string, isEmpty: bool, entries: seq<Entry>)

  /** The entries for `keys`, in their order, skipping unavailable types. */
  function AvailableEntries(props: PropertyMap, keys: seq<string>): seq<Entry>
    requires forall k :: k in keys ==> k in props
    decreases |keys|
  {
    if keys == [] then []
    else
      var k := keys[|keys| - 1];
      AvailableEntries(props, keys[..|keys| - 1]) + (if props[k].available then [Entry(k, props[k])] else [])
  }

  ghost function BlockOf(properties: Properties, name: string): Block
    requires name in properties
  {
    var props := properties[name];
    Block(name, |props| == 0, AvailableEntries(props, Sorted(props.Keys)))
  }

  ghost function Blocks(properties: Properties, names: seq<string>): seq<Block>
    requires forall n :: n in names ==> n in properties
    decreases |names|
  {
    if names == [] then []
    else Blocks(properties, names[..|names| - 1]) + [BlockOf(properties, names[|names| - 1])]
  }

  /** The structure of the generated table: one block per class, by name. */
  ghost function Table(properties: Properties): seq<Block>
  {
    Blocks(properties, Sorted(properties.Keys))
  }

  function RenderEntry(e: Entry): string
  {
    "        \"" + e.prop + "\": \"" + Show(e.desc) + "\",\n"
  }

  function RenderEntries(es: seq<Entry>): string
    decreases |es|
  {
    if es == [] then "" else RenderEntries(es[..|es| - 1]) + RenderEntry(es[|es| - 1])
  }

  /** The opening of a class's statement, `    symbols["name"] = [`. */
  function BlockHead(name: string): string
  {
    "    symbols[\"" + name + "\"] = ["
  }

  function RenderBlock(b: Block): string
  {
    if b.isEmpty then BlockHead(b.name) + ":]\n"
    else BlockHead(b.name) + "\n" + RenderEntries(b.entries) + "    ]\n"
  }

  function RenderBlocks(bs: seq<Block>): string
    decreases |bs|
  {
    if bs == [] then "" else RenderBlocks(bs[..|bs| - 1]) + RenderBlock(bs[|bs| - 1])
  }

  const Preamble: string :=
    "//  Copyright © 2017 Schibsted. All rights reserved.\n\n" +
    "import Foundation\n\n" +
    "// NOTE: This is a machine-generated file. Run the UIKitSymbols scheme to regenerate\n\n" +
    "let UIKitSymbols: [String: [String: String]] = {\n" +
    "    var symbols = [String: [String: String]]()\n"

  const Postamble: string :=
    "    return symbols\n" +
    "}()"

  /** The generated file: a function of the catalog alone. */
  ghost function SymbolFile(properties: Properties): string
  {
    Preamble + RenderBlocks(Table(properties)) + Postamble
  }

  /** `testBuildLayoutToolSymbols` without its file write: the text built from
      the result of `getProperties`. The same runtime always gives the same text. */
  method BuildLayoutToolSymbols(loaded: seq<LoadedClass>, registry: Registry, viewKeys: PropertyMap, controllerKeys: PropertyMap)
    returns (output: string)
    ensures output == SymbolFile(CatalogOf(loaded, registry, viewKeys, controllerKeys))
  {
    var properties := GetProperties(loaded, registry, viewKeys, controllerKeys);
    output := Generate(properties);
  }

  /** Builds the text of the symbol table for the catalog `properties`. */
  method Generate(properties: Properties) returns (output: string)
    ensures output == SymbolFile(properties)
  {
    var out := "";
    var names := SortedKeys(properties.Keys);
    for i := 0 to |names|
      invariant out == RenderBlocks(Blocks(properties, names[..i]))
    {
      ghost var done := Blocks(properties, names[..i]);
      var text := ClassSymbols(properties, names[i]);
      out := out + text;
      BlocksStep(properties, names, i);
      RenderBlocksAppend(done, BlockOf(properties, names[i]));
    }
    assert names[..|names|] == names;
    output := Preamble + out + Postamble;
  }

  /** The statement for one class: `[:]` when it has no properties, otherwise
      its property lines between brackets. */
  method ClassSymbols(properties: Properties, name: string) returns (text: string)
    requires name in properties
    ensures text == RenderBlock(BlockOf(properties, name))
  {
    var props := properties[name];
    text := BlockHead(name);
    if |props| == 0 {
      text := text + ":]\n";
    } else {
      text := text + "\n";
      var lines := PropertyLines(props);
      text := text + lines;
      text := text + "    ]\n";
    }
  }

  /** The inner loop: one line per available property, in ascending order. */
  method PropertyLines(props: PropertyMap) returns (lines: string)
    ensures lines == RenderEntries(AvailableEntries(props, Sorted(props.Keys)))
  {
    lines := "";
    var keys := SortedKeys(props.Keys);
    for j := 0 to |keys|
      invariant lines == RenderEntries(AvailableEntries(props, keys[..j]))
    {
      var prop := keys[j];
      var t := props[prop];
      ghost var done := AvailableEntries(props, keys[..j]);
      assert keys[..j + 1][..j] == keys[..j];
      assert AvailableEntries(props, keys[..j + 1]) == done + (if t.available then [Entry(prop, t)] else []);
      if !t.available {
        assert AvailableEntries(props, keys[..j + 1]) == done;
        continue;
      }
      RenderEntriesAppend(done, Entry(prop, t));
      lines := lines + RenderEntry(Entry(prop, t));
    }
    assert keys[..|keys|] == keys;
  }

  lemma RenderEntriesAppend(es: seq<Entry>, e: Entry)
    ensures RenderEntries(es + [e]) == RenderEntries(es) + RenderEntry(e)
  {
    assert (es + [e])[..|es|] == es;
  }

  lemma RenderBlocksAppend(bs: seq<Block>, b: Block)
    ensures RenderBlocks(bs + [b]) == RenderBlocks(bs) + RenderBlock(b)
  {
    assert (bs + [b])[..|bs|] == bs;
  }

  lemma BlocksStep(properties: Properties, names: seq<string>, i: nat)
    requires i < |names| && forall n :: n in names ==> n in properties
    ensures Blocks(properties, names[..i + 1]) == Blocks(properties, names[..i]) + [BlockOf(properties, names[i])]
  {
    assert names[..i + 1][..i] == names[..i];
  }

  lemma {:induction false} BlocksAt(properties: Properties, names: seq<string>)
    requires forall n :: n in names ==> n in properties
    ensures |Blocks(properties, names)| == |names|
    ensures forall i :: 0 <= i < |names| ==> Blocks(properties, names)[i] == BlockOf(properties, names[i])
    decreases |names|
  {
    if names != [] {
      var init := names[..|names| - 1];
      BlocksAt(properties, init);
      forall i | 0 <= i < |names|
        ensures Blocks(properties, names)[i] == BlockOf(properties, names[i])
      {
        if i < |init| {
          assert names[i] == init[i];
        }
      }
    }
  }

  /** The table has one block per class, in strictly ascending name order. */
  lemma TableOrder(properties: Properties)
    ensures |Table(properties)| == |properties|
    ensures forall i, j :: 0 <= i < j < |Table(properties)| ==>
      Below(Table(properties)[i].name, Table(properties)[j].name)
    ensures forall n :: n in properties <==> exists i :: 0 <= i < |Table(properties)| && Table(properties)[i].name == n
    ensures forall i :: 0 <= i < |Table(properties)| ==>
      Table(properties)[i].name in properties && Table(properties)[i] == BlockOf(properties, Table(properties)[i].name)
  {
    var names := Sorted(properties.Keys);
    BlocksAt(properties, names);
    assert |names| == |properties.Keys| by {
      SortedLength(names);
    }
    forall n | n in properties
      ensures exists i :: 0 <= i < |Table(properties)| && Table(properties)[i].name == n
    {
      assert n in Elems(names);
      var i :| 0 <= i < |names| && names[i] == n;
      assert Table(properties)[i].name == n;
    }
  }

  /** An ascending sequence has as many elements as its set of elements. */
  lemma {:induction false} SortedLength(r: seq<string>)
    requires Ascending(r)
    ensures |Elems(r)| == |r|
    decreases |r|
  {
    if r != [] {
      AscendingTail(r);
      SortedLength(r[1..]);
      assert Elems(r) == Elems(r[1..]) + {r[0]};
    }
  }

  lemma {:induction false} AvailableEntriesSpec(props: PropertyMap, keys: seq<string>)
    requires forall k :: k in keys ==> k in props
    requires Ascending(keys)
    ensures forall e :: e in AvailableEntries(props, keys) ==> e.prop in keys
    ensures forall e :: e in AvailableEntries(props, keys) <==>
      e.prop in keys && props[e.prop] == e.desc && e.desc.available
    ensures forall i, j :: 0 <= i < j < |AvailableEntries(props, keys)| ==>
      Below(AvailableEntries(props, keys)[i].prop, AvailableEntries(props, keys)[j].prop)
    decreases |keys|
  {
    if keys != [] {
      var init, last := keys[..|keys| - 1], keys[|keys| - 1];
      assert keys == init + [last];
      AvailableEntriesSpec(props, init);
      var before := AvailableEntries(props, init);
      forall e | e in before
        ensures Below(e.prop, last)
      {
        var k :| 0 <= k < |init| && init[k] == e.prop;
        assert Below(keys[k], keys[|keys| - 1]);
      }
      forall e: Entry | e.prop in keys && props[e.prop] == e.desc && e.desc.available
        ensures e in AvailableEntries(props, keys)
      {
        if e.prop != last {
          assert e.prop in init;
        }
      }
    }
  }

  /** A block says `[:]` exactly when the class has no properties, lists its
      available properties in ascending order and nothing else. */
  lemma BlockContents(properties: Properties, name: string)
    requires name in properties
    ensures BlockOf(properties, name).isEmpty <==> |properties[name]| == 0
    ensures forall e :: e in BlockOf(properties, name).entries <==>
      e.prop in properties[name] && properties[name][e.prop] == e.desc && e.desc.available
    ensures forall i, j :: 0 <= i < j < |BlockOf(properties, name).entries| ==>
      Below(BlockOf(properties, name).entries[i].prop, BlockOf(properties, name).entries[j].prop)
  {
    var props := properties[name];
    AvailableEntriesSpec(props, Sorted(props.Keys));
  }

  /** The two degenerate blocks: a class without properties is written
      `[:]`, and one whose properties are all unavailable is written as an
      empty list on two lines. */
  lemma EmptyBlocks(properties: Properties, name: string)
    requires name in properties
    ensures |properties[name]| == 0 ==>
      RenderBlock(BlockOf(properties, name)) == "    symbols[\"" + name + "\"] = [:]\n"
    ensures |properties[name]| > 0 && (forall p :: p in properties[name] ==> !properties[name][p].available) ==>
      RenderBlock(BlockOf(properties, name)) == "    symbols[\"" + name + "\"] = [\n    ]\n"
  {
    BlockContents(properties, name);
    var b := BlockOf(properties, name);
    if b.entries != [] {
      assert b.entries[0] in b.entries;
    }
  }

  /** A catalog of one class is written as that class's statement alone. */
  lemma SingleClassTable(properties: Properties, name: string)
    requires properties.Keys == {name}
    ensures RenderBlocks(Table(properties)) == RenderBlock(BlockOf(properties, name))
  {
    assert Elems([name]) == properties.Keys;
    SortingUnique([name], Sorted(properties.Keys), properties.Keys);
    var b := BlockOf(properties, name);
    assert [name][..0] == [];
    assert Blocks(properties, []) == [];
    assert Blocks(properties, [name]) == [b];
    assert Table(properties) == [b];
    assert [b][..0] == [];
  }
}
