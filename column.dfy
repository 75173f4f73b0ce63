/**
 * Column metadata of a table (`table.Column`, which is `model.ColumnInfo`):
 * lookups by name, the validators run before rows are written, and the
 * rows `DESC` and `SHOW COLUMNS` print.
 */
module Columns {
  import opened Outcomes
  import opened Numerals
  import opened Text
  import opened Datums

  // MySQL column flags (package mysql).
  const NotNullFlag: bv64 := 1
  const PriKeyFlag: bv64 := 2
  const UniqueKeyFlag: bv64 := 4
  const MultipleKeyFlag: bv64 := 8
  const UnsignedFlag: bv64 := 32
  const AutoIncrementFlag: bv64 := 512
  const NoDefaultValueFlag: bv64 := 4096
  const OnUpdateNowFlag: bv64 := 8192

  /** `mysql.Has...Flag`: the flag bit is set. */
  predicate HasFlag(flag: bv64, bit: bv64)
  {
    flag & bit != 0
  }

  /**
   * A column: its name as written (`Name.O`), the type text
   * `types.TypeToStr` and `FieldType.CompactStr` give for it (the type
   * library is not part of this model), its flags, its offset in a row, its
   * collation and its default value (`None` for a nil default).
   */
  datatype Column = Column(
    name: string,
    typeText: string,
    compactType: string,
    flag: bv64,
    offset: nat,
    collate: string,
    defaultValue: Option<Datum>)

  /** `Name.L`: the lower-cased name. */
  function LowerName(c: Column): string
  {
    Lower(c.name)
  }

  /** `strings.EqualFold`, on ASCII letters. */
  predicate EqualFold(a: string, b: string)
  {
    Lower(a) == Lower(b)
  }

  // ---------------------------------------------------------------------
  // String

  /** `Column.String`: name and type, then the auto-increment and not-null markers, joined by spaces. */
  function ColumnString(c: Column): (s: string)
  {
    var ans := [c.name, c.typeText];
    var ans := if HasFlag(c.flag, AutoIncrementFlag) then ans + ["AUTO_INCREMENT"] else ans;
    var ans := if HasFlag(c.flag, NotNullFlag) then ans + ["NOT NULL"] else ans;
    Join(ans, " ")
  }

  /** Joining one more part adds the separator and the part. */
  lemma JoinSnoc(parts: seq<string>, last: string, sep: string)
    requires |parts| >= 1
    ensures Join(parts + [last], sep) == Join(parts, sep) + sep + last
    decreases |parts|
  {
    if |parts| == 1 {
      assert (parts + [last])[1..] == [last];
    } else {
      assert (parts + [last])[1..] == parts[1..] + [last];
      JoinSnoc(parts[1..], last, sep);
    }
  }

  /** The text is the name, a space, the type, then ` AUTO_INCREMENT` and ` NOT NULL` for the flags set, in that order. */
  lemma ColumnStringForm(c: Column)
    ensures ColumnString(c) ==
            c.name + " " + c.typeText
            + (if HasFlag(c.flag, AutoIncrementFlag) then " AUTO_INCREMENT" else "")
            + (if HasFlag(c.flag, NotNullFlag) then " NOT NULL" else "")
  {
    var ai, nn := HasFlag(c.flag, AutoIncrementFlag), HasFlag(c.flag, NotNullFlag);
    var base := [c.name, c.typeText];
    assert Join(base, " ") == c.name + " " + c.typeText;
    var mid := if ai then base + ["AUTO_INCREMENT"] else base;
    JoinFlag(base, "AUTO_INCREMENT", " ", ai);
    JoinFlag(mid, "NOT NULL", " ", nn);
    assert " " + "AUTO_INCREMENT" == " AUTO_INCREMENT";
    assert " " + "NOT NULL" == " NOT NULL";
  }

  /** Adding a part when a flag is set adds the separator and the part to the text. */
  lemma JoinFlag(parts: seq<string>, word: string, sep: string, on: bool)
    requires |parts| >= 1
    ensures Join(if on then parts + [word] else parts, sep) == Join(parts, sep) + (if on then sep + word else "")
  {
    if on {
      JoinSnoc(parts, word, sep);
      assert Join(parts, sep) + sep + word == Join(parts, sep) + (sep + word);
    } else {
      assert Join(parts, sep) + "" == Join(parts, sep);
    }
  }

  // ---------------------------------------------------------------------
  // Lookups

  /** The position of the first column whose name equals `name` ignoring case, or `|cols|`. */
  function FirstMatch(cols: seq<Column>, name: string): (i: nat)
    ensures i <= |cols|
    ensures forall k :: 0 <= k < i ==> !EqualFold(cols[k].name, name)
    ensures i < |cols| ==> EqualFold(cols[i].name, name)
  {
    if cols == [] then 0
    else if EqualFold(cols[0].name, name) then 0
    else 1 + FirstMatch(cols[1..], name)
  }

  /** `FindCol`: the first column named `name` ignoring case, or nil. */
  method FindCol(cols: seq<Column>, name: string) returns (col: Option<Column>)
    ensures col.Some? <==> exists k :: 0 <= k < |cols| && EqualFold(cols[k].name, name)
    ensures col.Some? ==> col.value == cols[FirstMatch(cols, name)]
  {
    for i := 0 to |cols|
      invariant forall k :: 0 <= k < i ==> !EqualFold(cols[k].name, name)
    {
      if EqualFold(cols[i].name, name) {
        assert FirstMatch(cols, name) == i;
        return Some(cols[i]);
      }
    }
    return None;
  }

  /** `FindCols`: the columns named by `names`, in that order; the first unknown name is an error. */
  method FindCols(cols: seq<Column>, names: seq<string>) returns (r: Result<seq<Column>>)
    ensures r.Ok? <==> forall k :: 0 <= k < |names| ==> FirstMatch(cols, names[k]) < |cols|
    ensures r.Ok? ==> |r.value| == |names| &&
                      forall k :: 0 <= k < |names| ==> r.value[k] == cols[FirstMatch(cols, names[k])]
    ensures r.Err? ==> exists j :: 0 <= j < |names| && FirstMatch(cols, names[j]) == |cols| &&
                                   (forall k :: 0 <= k < j ==> FirstMatch(cols, names[k]) < |cols|) &&
                                   r.msg == "unknown column " + names[j]
  {
    var rcols := [];
    for i := 0 to |names|
      invariant |rcols| == i
      invariant forall k :: 0 <= k < i ==> FirstMatch(cols, names[k]) < |cols| && rcols[k] == cols[FirstMatch(cols, names[k])]
    {
      var col := FindCol(cols, names[i]);
      if col.Some? {
        rcols := rcols + [col.value];
      } else {
        return Err("unknown column " + names[i]);
      }
    }
    return Ok(rcols);
  }

  /** The positions below `n` of the columns with the on-update flag, in increasing order. */
  function OnUpdatePositions(cols: seq<Column>, n: nat): (ps: seq<nat>)
    requires n <= |cols|
    ensures forall k :: 0 <= k < |ps| ==> ps[k] < n && HasFlag(cols[ps[k]].flag, OnUpdateNowFlag)
    ensures forall k, l :: 0 <= k < l < |ps| ==> ps[k] < ps[l]
    ensures forall i :: 0 <= i < n && HasFlag(cols[i].flag, OnUpdateNowFlag) ==> i in ps
  {
    if n == 0 then []
    else
      var before := OnUpdatePositions(cols, n - 1);
      if HasFlag(cols[n - 1].flag, OnUpdateNowFlag) then before + [n - 1] else before
  }

  /** `FindOnUpdateCols`: exactly the columns with the on-update flag, in their order. */
  method FindOnUpdateCols(cols: seq<Column>) returns (rcols: seq<Column>)
    ensures var ps := OnUpdatePositions(cols, |cols|);
            |rcols| == |ps| && forall k :: 0 <= k < |ps| ==> rcols[k] == cols[ps[k]]
  {
    rcols := [];
    ghost var ps: seq<nat> := [];
    for i := 0 to |cols|
      invariant ps == OnUpdatePositions(cols, i)
      invariant |rcols| == |ps| && forall k :: 0 <= k < |ps| ==> rcols[k] == cols[ps[k]]
    {
      if HasFlag(cols[i].flag, OnUpdateNowFlag) {
        rcols := rcols + [cols[i]];
        ps := ps + [i];
      }
    }
  }

  // ---------------------------------------------------------------------
  // Validators

  /** No two columns share a lower-cased name. */
  predicate NamesDistinct(cols: seq<Column>)
  {
    forall i, j :: 0 <= i < j < |cols| ==> LowerName(cols[i]) != LowerName(cols[j])
  }

  /** `CheckOnce`: an error naming the first column whose lower-cased name was already seen. */
  method CheckOnce(cols: seq<Column>) returns (err: Option<string>)
    ensures err.None? <==> NamesDistinct(cols)
    ensures err.Some? ==> exists j :: 0 <= j < |cols| && NamesDistinct(cols[..j]) && !NamesDistinct(cols[..j + 1]) &&
                                      err.value == "column specified twice - " + cols[j].name
  {
    var m: set<string> := {};
    for i := 0 to |cols|
      invariant m == set k | 0 <= k < i :: LowerName(cols[k])
      invariant NamesDistinct(cols[..i])
    {
      var name := LowerName(cols[i]);
      if name in m {
        var k :| 0 <= k < i && LowerName(cols[k]) == name;
        assert cols[..i + 1][k] == cols[k] && cols[..i + 1][i] == cols[i];
        return Some("column specified twice - " + cols[i].name);
      }
      m := m + {name};
      assert forall k :: 0 <= k < i ==> cols[..i + 1][k] == cols[..i][k];
    }
    assert cols[..|cols|] == cols;
    return None;
  }

  /** `Column.CheckNotNull`: a null datum is refused by a NOT NULL column. */
  function CheckNotNullValue(c: Column, data: Datum): (err: Option<string>)
    ensures err.Some? <==> HasFlag(c.flag, NotNullFlag) && data.Null?
  {
    if HasFlag(c.flag, NotNullFlag) && data.Null? then Some("Column " + c.name + " can't be null.")
    else None
  }

  /** Every column's offset lies within the row. */
  predicate OffsetsIn(cols: seq<Column>, row: seq<Datum>)
  {
    forall k :: 0 <= k < |cols| ==> cols[k].offset < |row|
  }

  /** The list `CheckNotNull`: the error of the first column whose value in the row it refuses. */
  method CheckNotNull(cols: seq<Column>, row: seq<Datum>) returns (err: Option<string>)
    requires OffsetsIn(cols, row)
    ensures err.None? <==> forall k :: 0 <= k < |cols| ==> CheckNotNullValue(cols[k], row[cols[k].offset]).None?
    ensures err.Some? ==> exists j :: 0 <= j < |cols| &&
                            (forall k :: 0 <= k < j ==> CheckNotNullValue(cols[k], row[cols[k].offset]).None?) &&
                            err == CheckNotNullValue(cols[j], row[cols[j].offset])
  {
    for i := 0 to |cols|
      invariant forall k :: 0 <= k < i ==> CheckNotNullValue(cols[k], row[cols[k].offset]).None?
    {
      var e := CheckNotNullValue(cols[i], row[cols[i].offset]);
      if e.Some? {
        return e;
      }
    }
    return None;
  }

  // ---------------------------------------------------------------------
  // Descriptions

  /** `ColDesc`: one row of `DESC`/`SHOW COLUMNS`; a nil default is `None`. */
  datatype ColDesc = ColDesc(
    field: string,
    typeDesc: string,
    collation: string,
    nullable: string,
    key: string,
    defaultValue: Option<Datum>,
    extra: string,
    privileges: string,
    comment: string)

  const DefaultPrivileges: string := "select,insert,update,references"

  /** `GetTypeDesc`: the compact type, marked unsigned when the flag is set. */
  function TypeDesc(c: Column): (desc: string)
    ensures HasFlag(c.flag, UnsignedFlag) ==> desc == c.compactType + " UNSIGNED"
    ensures !HasFlag(c.flag, UnsignedFlag) ==> desc == c.compactType
  {
    if HasFlag(c.flag, UnsignedFlag) then c.compactType + " UNSIGNED" else c.compactType
  }

  /** The `Key` column: primary over unique over multiple. */
  function KeyText(flag: bv64): (key: string)
    ensures key == "PRI" <==> HasFlag(flag, PriKeyFlag)
    ensures key == "UNI" <==> !HasFlag(flag, PriKeyFlag) && HasFlag(flag, UniqueKeyFlag)
    ensures key == "MUL" <==> !HasFlag(flag, PriKeyFlag) && !HasFlag(flag, UniqueKeyFlag) && HasFlag(flag, MultipleKeyFlag)
    ensures key == "" <==> !HasFlag(flag, PriKeyFlag) && !HasFlag(flag, UniqueKeyFlag) && !HasFlag(flag, MultipleKeyFlag)
  {
    if HasFlag(flag, PriKeyFlag) then "PRI"
    else if HasFlag(flag, UniqueKeyFlag) then "UNI"
    else if HasFlag(flag, MultipleKeyFlag) then "MUL"
    else ""
  }

  /** The `Extra` column: auto-increment over on-update. */
  function ExtraText(flag: bv64): (extra: string)
    ensures extra == "auto_increment" <==> HasFlag(flag, AutoIncrementFlag)
    ensures extra == "on update CURRENT_TIMESTAMP" <==> !HasFlag(flag, AutoIncrementFlag) && HasFlag(flag, OnUpdateNowFlag)
    ensures extra == "" <==> !HasFlag(flag, AutoIncrementFlag) && !HasFlag(flag, OnUpdateNowFlag)
  {
    if HasFlag(flag, AutoIncrementFlag) then "auto_increment"
    else if HasFlag(flag, OnUpdateNowFlag) then "on update CURRENT_TIMESTAMP"
    else ""
  }

  /** The `Null` column: `NO` for a NOT NULL column, `YES` otherwise. */
  function NullText(flag: bv64): (nullable: string)
    ensures nullable == "NO" <==> HasFlag(flag, NotNullFlag)
    ensures nullable == "YES" <==> !HasFlag(flag, NotNullFlag)
  {
    if HasFlag(flag, NotNullFlag) then "NO" else "YES"
  }

  /** `NewColDesc`: the description row of a column; the default is dropped for a column flagged as having none. */
  function NewColDesc(c: Column): (d: ColDesc)
    ensures d.field == c.name && d.typeDesc == TypeDesc(c) && d.collation == c.collate
    ensures d.nullable == NullText(c.flag) && d.key == KeyText(c.flag) && d.extra == ExtraText(c.flag)
    ensures d.defaultValue.Some? <==> !HasFlag(c.flag, NoDefaultValueFlag) && c.defaultValue.Some?
    ensures d.defaultValue.Some? ==> d.defaultValue == c.defaultValue
    ensures d.privileges == DefaultPrivileges && d.comment == ""
  {
    ColDesc(
      c.name,
      TypeDesc(c),
      c.collate,
      NullText(c.flag),
      KeyText(c.flag),
      if HasFlag(c.flag, NoDefaultValueFlag) then None else c.defaultValue,
      ExtraText(c.flag),
      DefaultPrivileges,
      "")
  }

  /** `ColDescFieldNames`: the result-set column names, all nine for `SHOW FULL COLUMNS`. */
  function ColDescFieldNames(full: bool): (names: seq<string>)
    ensures |names| == (if full then 9 else 6)
  {
    if full then ["Field", "Type", "Collation", "Null", "Key", "Default", "Extra", "Privileges", "Comment"]
    else ["Field", "Type", "Null", "Key", "Default", "Extra"]
  }

  /** The short list is the full one without the collation, privileges and comment columns. */
  lemma ShortFieldNames()
    ensures var full := ColDescFieldNames(true);
            ColDescFieldNames(false) == full[..2] + full[3..7] &&
            full[2] == "Collation" && full[7] == "Privileges" && full[8] == "Comment"
  {
  }
}
