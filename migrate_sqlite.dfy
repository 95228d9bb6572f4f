/**
 * The SQLite migration script's decision logic (`scripts/migrate-sqlite.js`):
 * reading the `PRAGMA table_info` listing printed by the `sqlite3` shell and
 * deciding whether the `crawlRunId` column still has to be added. Running
 * the shell and the SQL itself are left out.
 */
module MigrateSqlite {
  import opened Wrappers
  import opened Text

  /** A column as read from one listing line: `name` is `undefined` when the line has no second field. */
  datatype Column = Column(name: Option<string>)

  /** `.filter(Boolean)` on strings: the non-empty ones, in order. */
  function NonEmpty(lines: seq<string>): (r: seq<string>)
    ensures forall i :: 0 <= i < |r| ==> r[i] != ""
    ensures forall l :: l in r <==> l in lines && l != ""
  {
    if lines == [] then []
    else if lines[0] == "" then NonEmpty(lines[1..])
    else [lines[0]] + NonEmpty(lines[1..])
  }

  /** The column a line describes: `line.split('|')[1]`. */
  function ColumnOf(line: string): (c: Column)
    ensures c.name.Some? <==> '|' in line
  {
    var parts := Split(line, '|');
    assert '|' in line ==> |parts| >= 2 by {
      if '|' in line {
        var i := IndexOfChar(line, '|');
        assert parts == [line[..i]] + Split(line[i + 1..], '|');
      }
    }
    if |parts| >= 2 then Column(Some(parts[1])) else Column(None)
  }

  /** The listing's lines: the output (empty when null) trimmed, then split on newlines. */
  function Lines(output: Option<string>): seq<string> {
    var text := if output.Some? then output.value else "";
    Split(Trim(text), '\n')
  }

  /** `parseTableInfo`: one column per non-empty line of the trimmed output, in order. */
  function ParseTableInfo(output: Option<string>): (cols: seq<Column>)
    ensures |cols| == |NonEmpty(Lines(output))|
    ensures forall i :: 0 <= i < |cols| ==> cols[i] == ColumnOf(NonEmpty(Lines(output))[i])
  {
    Columns(NonEmpty(Lines(output)))
  }

  /** One column per line, in order. */
  function Columns(lines: seq<string>): (cols: seq<Column>)
    ensures |cols| == |lines|
    ensures forall i :: 0 <= i < |lines| ==> cols[i] == ColumnOf(lines[i])
  {
    seq(|lines|, i requires 0 <= i < |lines| => ColumnOf(lines[i]))
  }

  /** Missing output, and output that is only blank, list no column. */
  lemma NoOutputNoColumns(output: Option<string>)
    requires output.None? || Trim(output.value) == ""
    ensures ParseTableInfo(output) == []
  {
    var text := if output.Some? then output.value else "";
    assert Trim(text) == "";
    assert '\n' !in Trim(text);
    assert Lines(output) == [""];
    assert NonEmpty([""]) == NonEmpty([]);
  }

  /** `columns.some((c) => c.name === 'crawlRunId')` */
  predicate HasCrawlRunId(cols: seq<Column>) {
    exists i :: 0 <= i < |cols| && cols[i].name == Some("crawlRunId")
  }

  /** The `ALTER TABLE UrlCrawl ADD COLUMN crawlRunId` statement runs exactly when the column is not listed. */
  function AddsCrawlRunIdColumn(output: Option<string>): (adds: bool)
    ensures adds <==> forall i :: 0 <= i < |ParseTableInfo(output)| ==> ParseTableInfo(output)[i].name != Some("crawlRunId")
  {
    !HasCrawlRunId(ParseTableInfo(output))
  }

  /** Splitting at the first separator. */
  lemma SplitAtFirst(a: string, sep: char, b: string)
    requires sep !in a
    ensures Split(a + [sep] + b, sep) == [a] + Split(b, sep)
  {
    var s := a + [sep] + b;
    var i := IndexOfChar(s, sep);
    IndexOfCharFirst(s, sep, |a|);
    assert s[..|a|] == a;
    assert s[i] !in a by {
      assert s[..i] == a[..i];
    }
    assert i == |a|;
    assert s[..i] == a && s[i + 1..] == b;
  }

  /** A listing line `cid|name|…` names its column `name`. */
  lemma ListingLineNamesColumn(cid: string, name: string, rest: string)
    requires '|' !in cid && '|' !in name
    ensures ColumnOf(cid + "|" + (name + "|" + rest)).name == Some(name)
  {
    SplitAtFirst(name, '|', rest);
    SplitAtFirst(cid, '|', name + "|" + rest);
  }

  /** When a listing line names `crawlRunId` (see `ListingLineNamesColumn`), the column is not added again. */
  lemma ListedColumnNotAddedAgain(output: Option<string>, line: string)
    requires line in Lines(output) && ColumnOf(line).name == Some("crawlRunId")
    ensures !AddsCrawlRunIdColumn(output)
  {
    var lines := NonEmpty(Lines(output));
    assert line != "" by {
      assert '|' in line;
    }
    var i :| 0 <= i < |lines| && lines[i] == line;
    assert ParseTableInfo(output)[i].name == Some("crawlRunId");
  }
}
