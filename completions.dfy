/**
 The completions emitter (`testBuildSublimeCompletions`): the editor's
 completion list, three fixed rows and then, per class in ascending name order,
 a tag row followed by a row per available property not already listed.
 Rows are compared as text, so the deduplication is on the rendered rows.
 */
module Completions {
  import opened Text
  import opened Catalog

  /** The row completing a tag name. */
  function TagRow(name: string): string
  {
    "{ \"trigger\": \"" + name + "\", \"contents\": \"" + name + " $0/>\" }"
  }

  /** The row completing an attribute, its trigger showing the attribute's type. */
  function AttrRow(prop: string, typeText: string): string
  {
    "{ \"trigger\": \"" + prop + "\t" + typeText + "\", \"contents\": \"" + prop + "=\\\"$0\\\"\" }"
  }

  /** The three rows listed before any class. */
  const StaticRows: seq<string> := [
    "{ \"trigger\": \"outlet\tString\", \"contents\": \"outlet=\\\"$0\\\"\" }",
    "{ \"trigger\": \"template\tURL\", \"contents\": \"template=\\\"$0\\\"\" }",
    "{ \"trigger\": \"xml\tURL\", \"contents\": \"xml=\\\"$0\\\"\" }"
  ]

  const Separator: string := ",\n        "

  /** Appends `row` unless an equal row is already listed. */
  function AddIfAbsent(rows: seq<string>, row: string): (r: seq<string>)
    ensures row in r && Elems(r) == Elems(rows) + {row}
    ensures |rows| <= |r| <= |rows| + 1 && r[..|rows|] == rows
    ensures |r| == |rows| <==> row in rows
  {
    if row in rows then rows else rows + [row]
  }

  /** The rows of the properties `keys` of one class, appended in order. */
  function AddProps(rows: seq<string>, props: PropertyMap, keys: seq<string>): seq<string>
    requires forall k :: k in keys ==> k in props
    decreases |keys|
  {
    if keys == [] then rows
    else
      var k := keys[|keys| - 1];
      var before := AddProps(rows, props, keys[..|keys| - 1]);
      if props[k].available then AddIfAbsent(before, AttrRow(k, Show(props[k]))) else before
  }

  /** The rows of one class: its tag row, then its properties in ascending order. */
  ghost function AddClass(rows: seq<string>, properties: Properties, name: string): seq<string>
    requires name in properties
  {
    AddProps(rows + [TagRow(name)], properties[name], Sorted(properties[name].Keys))
  }

  ghost function AddClasses(rows: seq<string>, properties: Properties, names: seq<string>): seq<string>
    requires forall n :: n in names ==> n in properties
    decreases |names|
  {
    if names == [] then rows
    else AddClass(AddClasses(rows, properties, names[..|names| - 1]), properties, names[|names| - 1])
  }

  /** The completion rows for the catalog `properties`. */
  ghost function Rows(properties: Properties): seq<string>
  {
    AddClasses(StaticRows, properties, Sorted(properties.Keys))
  }

  function CompletionsText(rows: seq<string>): string
  {
    "{\n" +
    "    \"scope\": \"text.xml\",\n" +
    "    \"completions\": [\n        " + Join(rows, Separator) + "\n" +
    "    ]\n" +
    "}\n"
  }

  /** The generated file: a function of the catalog alone. */
  ghost function CompletionsFile(properties: Properties): string
  {
    CompletionsText(Rows(properties))
  }

  /** `testBuildSublimeCompletions` without its file write: the completions
      built from the result of `getProperties`. */
  method BuildSublimeCompletions(loaded: seq<LoadedClass>, registry: Registry, viewKeys: PropertyMap, controllerKeys: PropertyMap)
    returns (output: string)
    ensures output == CompletionsFile(CatalogOf(loaded, registry, viewKeys, controllerKeys))
  {
    var properties := GetProperties(loaded, registry, viewKeys, controllerKeys);
    output := Generate(properties);
  }

  /** Builds the completions file for the catalog `properties`. */
  method Generate(properties: Properties) returns (output: string)
    ensures output == CompletionsFile(properties)
  {
    var rows := StaticRows;
    var names := SortedKeys(properties.Keys);
    for i := 0 to |names|
      invariant rows == AddClasses(StaticRows, properties, names[..i])
    {
      rows := ClassRows(rows, properties, names[i]);
      assert names[..i + 1][..i] == names[..i];
    }
    assert names[..|names|] == names;
    output := CompletionsText(rows);
  }

  /** The body of the loop over classes: the tag row, unconditionally, then the
      rows of the available properties that are not listed yet. */
  method ClassRows(rows: seq<string>, properties: Properties, name: string) returns (result: seq<string>)
    requires name in properties
    ensures result == AddClass(rows, properties, name)
  {
    var props := properties[name];
    result := rows + [TagRow(name)];
    ghost var start := result;
    var keys := SortedKeys(props.Keys);
    for j := 0 to |keys|
      invariant result == AddProps(start, props, keys[..j])
    {
      var prop := keys[j];
      var t := props[prop];
      assert keys[..j + 1][..j] == keys[..j];
      if !t.available {
        continue;
      }
      var row := AttrRow(prop, Show(t));
      if row !in result {
        result := result + [row];
      }
    }
    assert keys[..|keys|] == keys;
  }

  // Rows are only ever appended.

  lemma {:induction false} AddPropsExtends(rows: seq<string>, props: PropertyMap, keys: seq<string>)
    requires forall k :: k in keys ==> k in props
    ensures |rows| <= |AddProps(rows, props, keys)| && AddProps(rows, props, keys)[..|rows|] == rows
    decreases |keys|
  {
    if keys != [] {
      AddPropsExtends(rows, props, keys[..|keys| - 1]);
    }
  }

  lemma {:induction false} AddClassesExtends(rows: seq<string>, properties: Properties, names: seq<string>)
    requires forall n :: n in names ==> n in properties
    ensures |rows| <= |AddClasses(rows, properties, names)| && AddClasses(rows, properties, names)[..|rows|] == rows
    decreases |names|
  {
    if names != [] {
      var init, last := names[..|names| - 1], names[|names| - 1];
      AddClassesExtends(rows, properties, init);
      var before := AddClasses(rows, properties, init);
      AddPropsExtends(before + [TagRow(last)], properties[last], Sorted(properties[last].Keys));
      assert AddClasses(rows, properties, names)[..|before|] == before;
    }
  }

  /** The list begins with exactly the three fixed rows. */
  lemma RowsStartWithStatic(properties: Properties)
    ensures |Rows(properties)| >= 3 && Rows(properties)[..3] == StaticRows
  {
    AddClassesExtends(StaticRows, properties, Sorted(properties.Keys));
  }

  /** The fixed rows are the attribute rows of `outlet` (a String), `template`
      and `xml` (URLs). */
  lemma StaticRowsAreAttrRows()
    ensures StaticRows == [AttrRow("outlet", "String"), AttrRow("template", "URL"), AttrRow("xml", "URL")]
  {
    OutletRow();
    TemplateRow();
    XmlRow();
  }

  // Each row is assembled from its pieces one at a time, so that only two
  // literals are joined at each step.

  lemma OutletRow()
    ensures AttrRow("outlet", "String") == "{ \"trigger\": \"outlet\tString\", \"contents\": \"outlet=\\\"$0\\\"\" }"
  {
    var s := "{ \"trigger\": \"" + "outlet";
    assert s == "{ \"trigger\": \"outlet";
    s := s + "\t";
    assert s == "{ \"trigger\": \"outlet\t";
    s := s + "String";
    assert s == "{ \"trigger\": \"outlet\tString";
    s := s + "\", \"contents\": \"";
    assert s == "{ \"trigger\": \"outlet\tString\", \"contents\": \"";
    s := s + "outlet";
    assert s == "{ \"trigger\": \"outlet\tString\", \"contents\": \"outlet";
    s := s + "=\\\"$0\\\"\" }";
    assert s == "{ \"trigger\": \"outlet\tString\", \"contents\": \"outlet=\\\"$0\\\"\" }";
  }

  lemma TemplateRow()
    ensures AttrRow("template", "URL") == "{ \"trigger\": \"template\tURL\", \"contents\": \"template=\\\"$0\\\"\" }"
  {
    var s := "{ \"trigger\": \"" + "template";
    assert s == "{ \"trigger\": \"template";
    s := s + "\t";
    assert s == "{ \"trigger\": \"template\t";
    s := s + "URL";
    assert s == "{ \"trigger\": \"template\tURL";
    s := s + "\", \"contents\": \"";
    assert s == "{ \"trigger\": \"template\tURL\", \"contents\": \"";
    s := s + "template";
    assert s == "{ \"trigger\": \"template\tURL\", \"contents\": \"template";
    s := s + "=\\\"$0\\\"\" }";
    assert s == "{ \"trigger\": \"template\tURL\", \"contents\": \"template=\\\"$0\\\"\" }";
  }

  lemma XmlRow()
    ensures AttrRow("xml", "URL") == "{ \"trigger\": \"xml\tURL\", \"contents\": \"xml=\\\"$0\\\"\" }"
  {
    var s := "{ \"trigger\": \"" + "xml";
    assert s == "{ \"trigger\": \"xml";
    s := s + "\t";
    assert s == "{ \"trigger\": \"xml\t";
    s := s + "URL";
    assert s == "{ \"trigger\": \"xml\tURL";
    s := s + "\", \"contents\": \"";
    assert s == "{ \"trigger\": \"xml\tURL\", \"contents\": \"";
    s := s + "xml";
    assert s == "{ \"trigger\": \"xml\tURL\", \"contents\": \"xml";
    s := s + "=\\\"$0\\\"\" }";
    assert s == "{ \"trigger\": \"xml\tURL\", \"contents\": \"xml=\\\"$0\\\"\" }";
  }

  // Tag rows are told apart from attribute rows by their fourth last character.

  lemma TagRowShape(name: string)
    ensures |TagRow(name)| >= 4 && TagRow(name)[|TagRow(name)| - 4] == '>'
  {
    var front := "{ \"trigger\": \"" + name + "\", \"contents\": \"" + name;
    var back := " $0/>\" }";
    assert TagRow(name) == front + back;
    assert (front + back)[|front| + 4] == back[4];
  }

  lemma AttrRowShape(prop: string, typeText: string)
    ensures |AttrRow(prop, typeText)| >= 4 && AttrRow(prop, typeText)[|AttrRow(prop, typeText)| - 4] == '"'
  {
    var front := "{ \"trigger\": \"" + prop + "\t" + typeText + "\", \"contents\": \"" + prop;
    var back := "=\\\"$0\\\"\" }";
    assert AttrRow(prop, typeText) == front + back;
    assert (front + back)[|front| + 6] == back[6];
  }

  /** No tag row equals an attribute row, whatever the names contain. */
  lemma TagIsNotAttr(name: string, prop: string, typeText: string)
    ensures TagRow(name) != AttrRow(prop, typeText)
  {
    TagRowShape(name);
    AttrRowShape(prop, typeText);
  }

  /** Different class names give different tag rows. */
  lemma TagRowInjective(a: string, b: string)
    requires TagRow(a) == TagRow(b)
    ensures a == b
  {
    var open := "{ \"trigger\": \"";
    assert |TagRow(a)| == |open| + |a| + 16 + |a| + 8;
    assert |a| == |b|;
    assert TagRow(a) == open + a + ("\", \"contents\": \"" + a + " $0/>\" }");
    assert TagRow(b) == open + b + ("\", \"contents\": \"" + b + " $0/>\" }");
    assert a == TagRow(a)[|open|..|open| + |a|];
    assert b == TagRow(b)[|open|..|open| + |b|];
  }

  // The invariant the row list keeps while classes are processed.

  ghost predicate NoDuplicates(rows: seq<string>)
  {
    forall i, j :: 0 <= i < j < |rows| ==> rows[i] != rows[j]
  }

  /** Every tag row present belongs to a class in `done`. */
  ghost predicate TagsFrom(rows: seq<string>, done: set<string>)
  {
    forall n :: TagRow(n) in rows ==> n in done
  }

  /** Tag rows appear in ascending order of class name. */
  ghost predicate TagsAscending(rows: seq<string>)
  {
    forall i, j, a, b :: 0 <= i < j < |rows| && rows[i] == TagRow(a) && rows[j] == TagRow(b) ==> Below(a, b)
  }

  /** What the row list keeps while classes are processed in ascending order:
      no duplicates, ascending tag rows, tag rows only of the classes in `done`. */
  ghost predicate RowsInvariant(rows: seq<string>, done: set<string>)
  {
    NoDuplicates(rows) && TagsFrom(rows, done) && TagsAscending(rows)
  }

  lemma AddAttrKeepsInvariant(rows: seq<string>, done: set<string>, prop: string, typeText: string)
    requires RowsInvariant(rows, done)
    ensures RowsInvariant(AddIfAbsent(rows, AttrRow(prop, typeText)), done)
  {
    var row := AttrRow(prop, typeText);
    var r := AddIfAbsent(rows, row);
    forall n
      ensures TagRow(n) != row
    {
      TagIsNotAttr(n, prop, typeText);
    }
    if row !in rows {
      assert r[|rows|] == row;
      assert forall i :: 0 <= i < |rows| ==> r[i] == rows[i];
    }
  }

  lemma {:induction false} AddPropsKeepsInvariant(rows: seq<string>, done: set<string>, props: PropertyMap, keys: seq<string>)
    requires forall k :: k in keys ==> k in props
    requires RowsInvariant(rows, done)
    ensures RowsInvariant(AddProps(rows, props, keys), done)
    decreases |keys|
  {
    if keys != [] {
      var k := keys[|keys| - 1];
      AddPropsKeepsInvariant(rows, done, props, keys[..|keys| - 1]);
      if props[k].available {
        AddAttrKeepsInvariant(AddProps(rows, props, keys[..|keys| - 1]), done, k, Show(props[k]));
      }
    }
  }

  lemma AddClassKeepsInvariant(rows: seq<string>, done: set<string>, properties: Properties, name: string)
    requires name in properties
    requires RowsInvariant(rows, done)
    requires forall d :: d in done ==> Below(d, name)
    ensures RowsInvariant(AddClass(rows, properties, name), done + {name})
  {
    BelowIrreflexive(name);
    var r := rows + [TagRow(name)];
    assert TagRow(name) !in rows;
    forall n | TagRow(n) in r
      ensures n in done + {name}
    {
      if TagRow(n) == TagRow(name) {
        TagRowInjective(n, name);
      }
    }
    forall i, j, a, b | 0 <= i < j < |r| && r[i] == TagRow(a) && r[j] == TagRow(b)
      ensures Below(a, b)
    {
      if j == |rows| {
        TagRowInjective(b, name);
        assert rows[i] == TagRow(a);
      } else {
        assert rows[i] == TagRow(a) && rows[j] == TagRow(b);
      }
    }
    assert RowsInvariant(r, done + {name});
    AddPropsKeepsInvariant(r, done + {name}, properties[name], Sorted(properties[name].Keys));
  }

  lemma {:induction false} AddClassesKeepsInvariant(rows: seq<string>, done: set<string>, properties: Properties, names: seq<string>)
    requires forall n :: n in names ==> n in properties
    requires Ascending(names)
    requires RowsInvariant(rows, done)
    requires forall d, n :: d in done && n in names ==> Below(d, n)
    ensures RowsInvariant(AddClasses(rows, properties, names), done + Elems(names))
    decreases |names|
  {
    if names != [] {
      var init, last := names[..|names| - 1], names[|names| - 1];
      assert names == init + [last];
      assert Ascending(init);
      AddClassesKeepsInvariant(rows, done, properties, init);
      forall d | d in done + Elems(init)
        ensures Below(d, last)
      {
        if d in Elems(init) {
          var k :| 0 <= k < |init| && init[k] == d;
          assert Below(names[k], names[|names| - 1]);
        }
      }
      AddClassKeepsInvariant(AddClasses(rows, properties, init), done + Elems(init), properties, last);
      assert done + Elems(init) + {last} == done + Elems(names);
    }
  }

  lemma StaticRowsInvariant()
    ensures RowsInvariant(StaticRows, {})
  {
    StaticRowsAreAttrRows();
    forall n
      ensures TagRow(n) !in StaticRows
    {
      TagIsNotAttr(n, "outlet", "String");
      TagIsNotAttr(n, "template", "URL");
      TagIsNotAttr(n, "xml", "URL");
    }
  }

  /** No row appears twice, the tag rows appear in ascending order of class
      name, and the only tag rows are those of the catalog's classes. */
  lemma RowsWellFormed(properties: Properties)
    ensures NoDuplicates(Rows(properties))
    ensures TagsAscending(Rows(properties))
    ensures forall n :: TagRow(n) in Rows(properties) ==> n in properties
  {
    StaticRowsInvariant();
    AddClassesKeepsInvariant(StaticRows, {}, properties, Sorted(properties.Keys));
  }

  // What the list contains.

  /** The rows of a property map's available properties. */
  ghost function AttrRowsOf(props: PropertyMap): set<string>
  {
    set k | k in props && props[k].available :: AttrRow(k, Show(props[k]))
  }

  lemma {:induction false} AddPropsElems(rows: seq<string>, props: PropertyMap, keys: seq<string>)
    requires forall k :: k in keys ==> k in props
    ensures Elems(AddProps(rows, props, keys)) ==
      Elems(rows) + set k | k in keys && props[k].available :: AttrRow(k, Show(props[k]))
    decreases |keys|
  {
    if keys != [] {
      var init, last := keys[..|keys| - 1], keys[|keys| - 1];
      assert keys == init + [last];
      AddPropsElems(rows, props, init);
      var added := set k | k in init && props[k].available :: AttrRow(k, Show(props[k]));
      assert (set k | k in keys && props[k].available :: AttrRow(k, Show(props[k]))) ==
        added + (if props[last].available then {AttrRow(last, Show(props[last]))} else {});
      var before := AddProps(rows, props, init);
      var row := AttrRow(last, Show(props[last]));
      assert Elems(before + [row]) == Elems(before) + {row};
    }
  }

  /** All the rows the loop over `names` adds: tag rows and attribute rows. */
  ghost function ClassesRows(properties: Properties, names: seq<string>): set<string>
    requires forall n :: n in names ==> n in properties
    decreases |names|
  {
    if names == [] then {}
    else
      var last := names[|names| - 1];
      ClassesRows(properties, names[..|names| - 1]) + {TagRow(last)} + AttrRowsOf(properties[last])
  }

  lemma {:induction false} ClassesRowsMembers(properties: Properties, names: seq<string>, r: string)
    requires forall n :: n in names ==> n in properties
    ensures r in ClassesRows(properties, names) <==>
      exists n :: n in names && (r == TagRow(n) || r in AttrRowsOf(properties[n]))
    decreases |names|
  {
    if names != [] {
      var init, last := names[..|names| - 1], names[|names| - 1];
      assert names == init + [last];
      ClassesRowsMembers(properties, init, r);
      if r in ClassesRows(properties, init) {
        var n :| n in init && (r == TagRow(n) || r in AttrRowsOf(properties[n]));
        assert n in names;
      }
    }
  }

  lemma {:induction false} AddClassesElems(rows: seq<string>, properties: Properties, names: seq<string>)
    requires forall n :: n in names ==> n in properties
    ensures Elems(AddClasses(rows, properties, names)) == Elems(rows) + ClassesRows(properties, names)
    decreases |names|
  {
    if names != [] {
      var init, last := names[..|names| - 1], names[|names| - 1];
      AddClassesElems(rows, properties, init);
      var before := AddClasses(rows, properties, init);
      var props := properties[last];
      AddPropsElems(before + [TagRow(last)], props, Sorted(props.Keys));
      assert (set k | k in Sorted(props.Keys) && props[k].available :: AttrRow(k, Show(props[k]))) == AttrRowsOf(props);
      assert Elems(before + [TagRow(last)]) == Elems(before) + {TagRow(last)};
    }
  }

  /** The list holds exactly the fixed rows, a tag row per class and a row per
      available property of each class; unavailable properties add nothing. */
  lemma RowsContents(properties: Properties)
    ensures forall r :: r in Rows(properties) <==>
      || r in StaticRows
      || (exists n :: n in properties && r == TagRow(n))
      || (exists n, k :: n in properties && k in properties[n] && properties[n][k].available &&
            r == AttrRow(k, Show(properties[n][k])))
  {
    var names := Sorted(properties.Keys);
    AddClassesElems(StaticRows, properties, names);
    forall r
      ensures r in Rows(properties) <==>
        || r in StaticRows
        || (exists n :: n in properties && r == TagRow(n))
        || (exists n, k :: n in properties && k in properties[n] && properties[n][k].available &&
              r == AttrRow(k, Show(properties[n][k])))
    {
      assert r in Rows(properties) <==> r in Elems(Rows(properties));
      ClassesRowsMembers(properties, names, r);
      if n :| n in properties && r in AttrRowsOf(properties[n]) {
        var k :| k in properties[n] && properties[n][k].available && r == AttrRow(k, Show(properties[n][k]));
      }
      forall n, k | n in properties && k in properties[n] && properties[n][k].available &&
          r == AttrRow(k, Show(properties[n][k]))
        ensures r in ClassesRows(properties, names)
      {
        assert n in names;
        assert r in AttrRowsOf(properties[n]);
      }
    }
  }
}
