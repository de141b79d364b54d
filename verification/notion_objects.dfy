/** Builders of the JSON fragments the bot sends to Notion
    (src/api/notion/objects.rs), each with the reader that recovers what it
    was built from. */
module NotionObjects {
  import opened Wrappers
  import opened Json
  import opened Calendar
  import opened Movie

  /** `{"type": "text", "text": {"content": content}}`. */
  function TextElement(content: string): Json {
    Obj(map["type" := Str("text"), "text" := Obj(map["content" := Str(content)])])
  }

  /** The content of a text element, if `j` is one. */
  function TextContent(j: Json): Option<string> {
    if Get(j, "type") == Str("text") && Get(Get(j, "text"), "content").Str?
    then Some(Get(Get(j, "text"), "content").s)
    else None
  }

  /** The contents of an array of text elements, in order. */
  function TextContents(j: Json): Option<seq<string>> {
    if j.Arr? then TextContentsOf(j.items) else None
  }

  function TextContentsOf(items: seq<Json>): Option<seq<string>> {
    if items == [] then Some([])
    else
      var first :- TextContent(items[0]);
      var rest :- TextContentsOf(items[1..]);
      Some([first] + rest)
  }

  lemma SingleTextContents(content: string)
    ensures TextContentsOf([TextElement(content)]) == Some([content])
  {
    assert TextContent(TextElement(content)) == Some(content);
    assert [TextElement(content)][1..] == [];
    assert TextContentsOf([]) == Some([]);
    assert [content] + [] == [content];
  }

  /** A title property: exactly one text element, holding `content`. */
  function TitleProperty(content: string): (j: Json)
    ensures j.Obj? && j.fields.Keys == {"type", "title"} && Get(j, "type") == Str("title")
    ensures TextContents(Get(j, "title")) == Some([content])
  {
    SingleTextContents(content);
    Obj(map["type" := Str("title"), "title" := Arr([TextElement(content)])])
  }

  /** A rich-text property: exactly one text element, holding `content`. */
  function TextProperty(content: string): (j: Json)
    ensures j.Obj? && j.fields.Keys == {"rich_text"}
    ensures TextContents(Get(j, "rich_text")) == Some([content])
  {
    SingleTextContents(content);
    Obj(map["rich_text" := Arr([TextElement(content)])])
  }

  function UrlProperty(url: string): (j: Json)
    ensures j.Obj? && j.fields.Keys == {"url"} && Get(j, "url") == Str(url)
  {
    Obj(map["url" := Str(url)])
  }

  /** A number property; a NaN or infinite value is written as `null`. */
  function F64NumberProperty(number: Float64): (j: Json)
    ensures j.Obj? && j.fields.Keys == {"number"}
    ensures Get(j, "number") == F64Value(number)
  {
    Obj(map["number" := F64Value(number)])
  }

  function U32NumberProperty(number: U32): (j: Json)
    ensures j.Obj? && j.fields.Keys == {"number"} && Get(j, "number") == Num(Int(number))
  {
    Obj(map["number" := Num(Int(number))])
  }

  /** A select property naming `content`. */
  function SelectProperty(content: string): (j: Json)
    ensures j.Obj? && j.fields.Keys == {"type", "select"} && Get(j, "type") == Str("select")
    ensures Get(j, "select").Obj? && Get(j, "select").fields.Keys == {"name"}
    ensures Get(Get(j, "select"), "name") == Str(content)
  {
    Obj(map["type" := Str("select"), "select" := Obj(map["name" := Str(content)])])
  }

  /** One `{"name": c}` per input string, in input order. */
  function NameObjects(contents: seq<string>): (items: seq<Json>)
    ensures |items| == |contents|
    ensures forall i :: 0 <= i < |items| ==> items[i] == Obj(map["name" := Str(contents[i])])
  {
    if contents == [] then []
    else [Obj(map["name" := Str(contents[0])])] + NameObjects(contents[1..])
  }

  /** The option names of a multi-select value, in order. */
  function NamesOf(items: seq<Json>): Option<seq<string>> {
    if items == [] then Some([])
    else if Get(items[0], "name").Str? then
      var rest :- NamesOf(items[1..]);
      Some([Get(items[0], "name").s] + rest)
    else None
  }

  /** A multi-select property with one option per input string: same order,
      same count, duplicates kept. */
  function MultiSelectProperty(contents: seq<string>): (j: Json)
    ensures j.Obj? && j.fields.Keys == {"type", "multi_select"} && Get(j, "type") == Str("multi_select")
    ensures Get(j, "multi_select").Arr? && |Get(j, "multi_select").items| == |contents|
  {
    Obj(map["type" := Str("multi_select"), "multi_select" := Arr(NameObjects(contents))])
  }

  /** The option names of a multi-select property, if `j` is one. */
  function MultiSelectNames(j: Json): Option<seq<string>> {
    var options := Get(j, "multi_select");
    if options.Arr? then NamesOf(options.items) else None
  }

  /** Reading the options of a multi-select property gives back exactly the
      strings it was built from. */
  lemma {:induction false} MultiSelectRoundTrip(contents: seq<string>)
    ensures MultiSelectNames(MultiSelectProperty(contents)) == Some(contents)
  {
    NamesOfNameObjects(contents);
  }

  lemma {:induction false} NamesOfNameObjects(contents: seq<string>)
    ensures NamesOf(NameObjects(contents)) == Some(contents)
  {
    if contents != [] {
      var items := NameObjects(contents);
      assert items[1..] == NameObjects(contents[1..]);
      assert Get(items[0], "name") == Str(contents[0]);
      NamesOfNameObjects(contents[1..]);
      assert [contents[0]] + contents[1..] == contents;
    }
  }

  /** A date property whose `start` is the date's ISO 8601 string form. */
  function DateProperty(date: NaiveDate): (j: Json)
    ensures j.Obj? && j.fields.Keys == {"date"}
    ensures Get(j, "date").Obj? && Get(j, "date").fields.Keys == {"start"}
    ensures Get(Get(j, "date"), "start") == Str(ToIsoString(date))
  {
    Obj(map["date" := Obj(map["start" := Str(ToIsoString(date))])])
  }

  /** A page body with no properties yet. */
  function NewDatabaseObject(): (j: Json)
    ensures j.Obj? && j.fields.Keys == {"properties"}
    ensures Get(j, "properties") == Obj(map[])
  {
    Obj(map["properties" := Obj(map[])])
  }

  /** An external file at `url`. */
  function FileObject(url: string): (j: Json)
    ensures j.Obj? && j.fields.Keys == {"type", "external"} && Get(j, "type") == Str("external")
    ensures Get(j, "external").Obj? && Get(j, "external").fields.Keys == {"url"}
    ensures Get(Get(j, "external"), "url") == Str(url)
  {
    Obj(map["type" := Str("external"), "external" := Obj(map["url" := Str(url)])])
  }

  /** A parent reference to the database `dbId`. */
  function ParentObject(dbId: string): (j: Json)
    ensures j.Obj? && j.fields.Keys == {"database_id", "type"}
    ensures Get(j, "database_id") == Str(dbId) && Get(j, "type") == Str("database_id")
  {
    Obj(map["database_id" := Str(dbId), "type" := Str("database_id")])
  }
}
