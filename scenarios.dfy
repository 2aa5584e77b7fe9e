/**
 A small catalog worked through both emitters: one class, `UILabel`, with an
 available property `text` of type `String` and an unavailable one, `enabled`.
 */
module Scenarios {
  import opened Text
  import opened Catalog
  import opened SymbolTable
  import opened Completions

  const LabelProps: PropertyMap := map["text" := Desc("String", true), "enabled" := Desc("Bool", false)]

  const LabelCatalog: Properties := map["UILabel" := LabelProps]

  lemma LabelSorted()
    ensures Sorted(LabelProps.Keys) == ["enabled", "text"]
    ensures Sorted(LabelCatalog.Keys) == ["UILabel"]
  {
    assert Below("enabled", "text");
    assert Elems(["enabled", "text"]) == LabelProps.Keys;
    SortingUnique(["enabled", "text"], Sorted(LabelProps.Keys), LabelProps.Keys);
    assert Elems(["UILabel"]) == LabelCatalog.Keys;
    SortingUnique(["UILabel"], Sorted(LabelCatalog.Keys), LabelCatalog.Keys);
  }

  /** The label's block lists `text` and leaves out the unavailable `enabled`. */
  lemma LabelBlock()
    ensures BlockOf(LabelCatalog, "UILabel") == Block("UILabel", false, [Entry("text", Desc("String", true))])
  {
    LabelSorted();
    assert ["enabled", "text"][..1] == ["enabled"];
    assert AvailableEntries(LabelProps, ["enabled"]) == [];
    assert AvailableEntries(LabelProps, ["enabled", "text"]) == [Entry("text", Desc("String", true))];
    assert |LabelProps| == 2;
  }

  /** The statement written for the label. */
  lemma LabelSymbols()
    ensures RenderBlock(BlockOf(LabelCatalog, "UILabel")) ==
      "    symbols[\"UILabel\"] = [\n        \"text\": \"String\",\n    ]\n"
  {
    LabelBlock();
    LabelBlockText();
  }

  lemma LabelBlockText()
    ensures RenderBlock(Block("UILabel", false, [Entry("text", Desc("String", true))])) ==
      "    symbols[\"UILabel\"] = [\n        \"text\": \"String\",\n    ]\n"
  {
    TextLine();
    var s := BlockHead("UILabel") + "\n";
    assert s == "    symbols[\"UILabel\"] = [\n";
    s := s + "        \"text\": \"String\",\n";
    assert s == "    symbols[\"UILabel\"] = [\n        \"text\": \"String\",\n";
    s := s + "    ]\n";
    assert s == "    symbols[\"UILabel\"] = [\n        \"text\": \"String\",\n    ]\n";
  }

  lemma TextLine()
    ensures RenderEntries([Entry("text", Desc("String", true))]) == "        \"text\": \"String\",\n"
  {
    assert [Entry("text", Desc("String", true))][..0] == [];
  }

  /** The whole symbol table for the catalog: the fixed header, the label's
      statement and the fixed footer. */
  lemma LabelSymbolFile()
    ensures SymbolFile(LabelCatalog) ==
      Preamble + "    symbols[\"UILabel\"] = [\n        \"text\": \"String\",\n    ]\n" + Postamble
  {
    LabelTable();
  }

  lemma LabelTable()
    ensures RenderBlocks(Table(LabelCatalog)) ==
      "    symbols[\"UILabel\"] = [\n        \"text\": \"String\",\n    ]\n"
  {
    SingleClassTable(LabelCatalog, "UILabel");
    LabelSymbols();
  }

  /** The completion rows: the fixed rows, the label's tag row and the row of
      `text`; `enabled` adds none. */
  lemma LabelRows()
    ensures Rows(LabelCatalog) == StaticRows + [TagRow("UILabel"), AttrRow("text", "String")]
  {
    LabelSorted();
    assert ["enabled", "text"][..1] == ["enabled"];
    var start := StaticRows + [TagRow("UILabel")];
    assert AddProps(start, LabelProps, ["enabled"]) == start;
    StaticRowsAreAttrRows();
    TagIsNotAttr("UILabel", "text", "String");
    assert AttrRow("text", "String") != AttrRow("outlet", "String");
    assert AttrRow("text", "String") != AttrRow("template", "URL");
    assert AttrRow("text", "String") != AttrRow("xml", "URL");
    assert AttrRow("text", "String") !in start;
    assert AddProps(start, LabelProps, ["enabled", "text"]) == start + [AttrRow("text", "String")];
    assert AddClasses(StaticRows, LabelCatalog, ["UILabel"]) == AddClass(StaticRows, LabelCatalog, "UILabel");
  }
}
