/** Renaming the columns of a chart's data so that every key is usable, and every reference with it. */
module DatasetKeys {
  import opened Decimals
  import opened Options

  // A column, or a series of the chart, with its label; a key that is no string is left alone.
  datatype Column = Column(key: Option<string>, caption: Option<string>)

  // What can refer to columns: the chart itself or one of its panels.
  datatype Node = Node(
    direct: seq<Option<string>>,         // x_key, y_key, category_key, value_key, group_key, size_key
    series: seq<Column>,
    errorBars: seq<seq<Option<string>>>, // series_key, lower_key, upper_key of each
    panels: seq<Node>)

  predicate IsLetter(c: char) {
    'A' <= c <= 'Z' || 'a' <= c <= 'z' || c == '_'
  }

  predicate ValidKey(key: string) {
    && 1 <= |key| <= 64 && IsLetter(key[0])
    && forall c :: c in key ==> IsLetter(c) || '0' <= c <= '9' || c == '.' || c == '-'
  }

  function Field(n: nat): string {
    "field_" + Decimal(n)
  }

  lemma FieldsDiffer(a: nat, b: nat)
    requires Field(a) == Field(b)
    ensures a == b
  {
    assert Field(a)[6..] == Decimal(a) && Field(b)[6..] == Decimal(b);
    DecimalIsExact(a);
    DecimalIsExact(b);
  }

  lemma FieldIsValid(n: nat)
    requires |Decimal(n)| <= 58
    ensures ValidKey(Field(n))
  {
    DigitsOnly(n);
    forall c | c in Field(n) ensures IsLetter(c) || '0' <= c <= '9' {
      assert c in "field_" || c in Decimal(n);
    }
  }

  // ---------------------------------------------------------------------------------------------
  // References

  function Translate(aliases: map<string, string>, key: string): string {
    if key in aliases then aliases[key] else key
  }

  function RewriteKey(aliases: map<string, string>, key: Option<string>): Option<string> {
    if key.Some? then Some(Translate(aliases, key.value)) else None
  }

  function RewriteKeys(aliases: map<string, string>, keys: seq<Option<string>>): seq<Option<string>> {
    seq(|keys|, i requires 0 <= i < |keys| => RewriteKey(aliases, keys[i]))
  }

  // A series without a caption of its own keeps showing its old key.
  function RewriteSeries(aliases: map<string, string>, item: Column): Column {
    if item.key.Some? && item.key.value in aliases then
      Column(RewriteKey(aliases, item.key), if item.caption == None then item.key else item.caption)
    else item
  }

  function Rewrite(aliases: map<string, string>, node: Node): Node {
    Node(RewriteKeys(aliases, node.direct),
         seq(|node.series|, i requires 0 <= i < |node.series| => RewriteSeries(aliases, node.series[i])),
         seq(|node.errorBars|, i requires 0 <= i < |node.errorBars| => RewriteKeys(aliases, node.errorBars[i])),
         seq(|node.panels|, i requires 0 <= i < |node.panels| => Rewrite(aliases, node.panels[i])))
  }

  function KeysOf(items: seq<Column>): seq<Option<string>> {
    seq(|items|, i requires 0 <= i < |items| => items[i].key)
  }

  function Flatten(lists: seq<seq<Option<string>>>): seq<Option<string>> {
    if lists == [] then [] else Flatten(lists[..|lists| - 1]) + lists[|lists| - 1]
  }

  // Every place where the chart or a panel, at any depth, refers to a column, in a fixed order.
  function References(node: Node): seq<Option<string>> {
    node.direct + KeysOf(node.series) + Flatten(node.errorBars)
    + Flatten(seq(|node.panels|, i requires 0 <= i < |node.panels| => References(node.panels[i])))
  }

  lemma RewriteKeysOfConcat(aliases: map<string, string>, a: seq<Option<string>>, b: seq<Option<string>>)
    ensures RewriteKeys(aliases, a + b) == RewriteKeys(aliases, a) + RewriteKeys(aliases, b)
  {
  }

  lemma {:induction false} RewriteKeysOfFlatten(
    aliases: map<string, string>, lists: seq<seq<Option<string>>>, rewritten: seq<seq<Option<string>>>)
    requires |rewritten| == |lists|
    requires forall i :: 0 <= i < |lists| ==> rewritten[i] == RewriteKeys(aliases, lists[i])
    ensures Flatten(rewritten) == RewriteKeys(aliases, Flatten(lists))
    decreases |lists|
  {
    if lists != [] {
      RewriteKeysOfFlatten(aliases, lists[..|lists| - 1], rewritten[..|lists| - 1]);
      RewriteKeysOfConcat(aliases, Flatten(lists[..|lists| - 1]), lists[|lists| - 1]);
    }
  }

  /** Rewriting translates every reference, in nested panels too, and nothing else. */
  lemma {:induction false} RewriteTranslatesReferences(aliases: map<string, string>, node: Node)
    ensures References(Rewrite(aliases, node)) == RewriteKeys(aliases, References(node))
    decreases node
  {
    var after := Rewrite(aliases, node);
    assert KeysOf(after.series) == RewriteKeys(aliases, KeysOf(node.series));
    RewriteKeysOfFlatten(aliases, node.errorBars, after.errorBars);
    var lists := seq(|node.panels|, i requires 0 <= i < |node.panels| => References(node.panels[i]));
    var rewritten := seq(|after.panels|, i requires 0 <= i < |after.panels| => References(after.panels[i]));
    forall i | 0 <= i < |node.panels| ensures rewritten[i] == RewriteKeys(aliases, lists[i]) {
      RewriteTranslatesReferences(aliases, node.panels[i]);
    }
    RewriteKeysOfFlatten(aliases, lists, rewritten);
    RewriteKeysOfConcat(aliases, node.direct, KeysOf(node.series));
    RewriteKeysOfConcat(aliases, node.direct + KeysOf(node.series), Flatten(node.errorBars));
    RewriteKeysOfConcat(aliases, node.direct + KeysOf(node.series) + Flatten(node.errorBars), Flatten(lists));
  }

  lemma {:induction false} RewriteWithoutAliases(node: Node)
    ensures Rewrite(map[], node) == node
    decreases node
  {
    var after := Rewrite(map[], node);
    forall i | 0 <= i < |node.panels| ensures after.panels[i] == node.panels[i] {
      RewriteWithoutAliases(node.panels[i]);
    }
    assert forall i :: 0 <= i < |node.errorBars| ==> after.errorBars[i] == node.errorBars[i];
  }

  // ---------------------------------------------------------------------------------------------
  // Columns

  predicate UniqueKeys(columns: seq<Column>) {
    forall i, j :: 0 <= i < j < |columns| && columns[i].key.Some? ==> columns[i].key != columns[j].key
  }

  function KeySet(columns: seq<Column>): set<string> {
    set column | column in columns && column.key.Some? :: column.key.value
  }

  // The keys that are valid already.
  function Reserved(columns: seq<Column>): set<string> {
    set key | key in KeySet(columns) && ValidKey(key)
  }

  lemma KeySetOfAppend(columns: seq<Column>, column: Column)
    ensures KeySet(columns + [column]) == KeySet(columns) + if column.key.Some? then {column.key.value} else {}
  {
    assert column in columns + [column];
    forall key | key in KeySet(columns) ensures key in KeySet(columns + [column]) {
      var one :| one in columns && one.key == Some(key);
      assert one in columns + [column];
    }
  }

  lemma KeyIsNew(columns: seq<Column>, i: nat)
    requires UniqueKeys(columns) && i < |columns| && columns[i].key.Some?
    ensures columns[i].key.value !in KeySet(columns[..i])
  {
    forall one | one in columns[..i] ensures one.key != columns[i].key {
      var j :| 0 <= j < i && columns[j] == one;
    }
  }

  predicate Unusable(column: Column) {
    column.key.Some? && !ValidKey(column.key.value)
  }

  function CountInvalid(columns: seq<Column>): nat {
    if columns == [] then 0
    else CountInvalid(columns[..|columns| - 1]) + if Unusable(columns[|columns| - 1]) then 1 else 0
  }

  lemma {:induction false} ReservedAndInvalid(columns: seq<Column>)
    ensures |Reserved(columns)| + CountInvalid(columns) <= |columns|
    decreases |columns|
  {
    if columns != [] {
      var init, last := columns[..|columns| - 1], columns[|columns| - 1];
      ReservedAndInvalid(init);
      assert columns == init + [last];
      KeySetOfAppend(init, last);
      if last.key.Some? && ValidKey(last.key.value) {
        assert Reserved(columns) == Reserved(init) + {last.key.value};
      } else {
        assert Reserved(columns) == Reserved(init);
      }
    }
  }

  lemma {:induction false} CountInvalidOfPrefix(columns: seq<Column>, i: nat)
    requires i < |columns|
    ensures CountInvalid(columns[..i]) + (if Unusable(columns[i]) then 1 else 0) <= CountInvalid(columns)
    decreases |columns|
  {
    var last := |columns| - 1;
    if i < last {
      assert columns[..last][..i] == columns[..i];
      CountInvalidOfPrefix(columns[..last], i);
    }
  }

  function FieldsBelow(n: nat): (fields: set<string>)
    ensures forall k :: 1 <= k < n ==> Field(k) in fields
    ensures forall field :: field in fields ==> exists k :: 1 <= k < n && Field(k) == field
  {
    if n <= 1 then {} else FieldsBelow(n - 1) + {Field(n - 1)}
  }

  lemma {:induction false} FieldsBelowCount(n: nat)
    ensures |FieldsBelow(n)| == if n == 0 then 0 else n - 1
    decreases n
  {
    hide Field, Decimal;
    if n > 1 {
      FieldsBelowCount(n - 1);
      if Field(n - 1) in FieldsBelow(n - 1) {
        var k :| 1 <= k < n - 1 && Field(k) == Field(n - 1);
        FieldsDiffer(k, n - 1);
      }
    }
  }

  // If all smaller aliases are taken, there are at least as many taken keys.
  lemma AliasIsSmall(n: nat, taken: set<string>)
    requires n >= 1 && forall k :: 1 <= k < n ==> Field(k) in taken
    ensures n - 1 <= |taken|
  {
    FieldsBelowCount(n);
    assert FieldsBelow(n) <= taken;
    assert |taken| == |FieldsBelow(n)| + |taken - FieldsBelow(n)|;
  }

  // How many of the aliases before the n-th are not keys already.
  function FreeBelow(reserved: set<string>, n: nat): nat {
    if n <= 1 then 0 else FreeBelow(reserved, n - 1) + if Field(n - 1) in reserved then 0 else 1
  }

  // The alias is the free one with this many free ones before it.
  ghost predicate IsFree(reserved: set<string>, alias: string, earlier: nat) {
    exists n :: n >= 1 && alias == Field(n) && alias !in reserved && FreeBelow(reserved, n) == earlier
  }

  lemma {:induction false} FreeBelowGrows(reserved: set<string>, a: nat, b: nat)
    requires 1 <= a < b && Field(a) !in reserved
    ensures FreeBelow(reserved, a) < FreeBelow(reserved, b)
    decreases b
  {
    if a < b - 1 {
      FreeBelowGrows(reserved, a, b - 1);
    }
  }

  lemma {:induction false} FreeBelowStays(reserved: set<string>, a: nat, b: nat)
    requires 1 <= a <= b && forall k :: a <= k < b ==> Field(k) in reserved
    ensures FreeBelow(reserved, a) == FreeBelow(reserved, b)
    decreases b
  {
    if a < b {
      FreeBelowStays(reserved, a, b - 1);
    }
  }

  // Some column is the invalid one with this many invalid ones before it.
  lemma {:induction false} InvalidAt(columns: seq<Column>, earlier: nat) returns (i: nat)
    requires earlier < CountInvalid(columns)
    ensures i < |columns| && Unusable(columns[i]) && CountInvalid(columns[..i]) == earlier
    decreases |columns|
  {
    var front := columns[..|columns| - 1];
    if earlier < CountInvalid(front) {
      i := InvalidAt(front, earlier);
      assert front[..i] == columns[..i];
    } else {
      i := |columns| - 1;
    }
  }

  // The first free alias.
  method NextAlias(start: nat, taken: set<string>) returns (n: nat)
    requires start >= 1
    ensures n >= start && Field(n) !in taken
    ensures forall k :: start <= k < n ==> Field(k) in taken
  {
    n := start;
    ghost var remaining := taken;
    while Field(n) in taken
      invariant n >= start && forall k :: start <= k < n ==> Field(k) in taken
      invariant forall k :: k >= n && Field(k) in taken ==> Field(k) in remaining
      decreases |remaining|
    {
      forall k | k > n ensures Field(k) != Field(n) {
        if Field(k) == Field(n) {
          FieldsDiffer(k, n);
        }
      }
      remaining := remaining - {Field(n)};
      n := n + 1;
    }
  }

  // The column under its new key; without a caption of its own it keeps showing the old one.
  function Renamed(column: Column, alias: string): Column {
    if column.key == Some(alias) then column
    else Column(Some(alias), if column.caption == None then column.key else column.caption)
  }

  // What a renaming of the columns is.
  ghost predicate IsRenaming(before: seq<Column>, after: seq<Column>, aliases: map<string, string>) {
    && |after| == |before|
    && (forall i :: 0 <= i < |before| ==>
          after[i] == if before[i].key == None then before[i]
                      else Renamed(before[i], Translate(aliases, before[i].key.value)))
    && aliases.Keys <= KeySet(before) && (forall key :: key in aliases ==> !ValidKey(key))
    && UniqueKeys(after)
  }

  // The unusable keys among the first columns get the free aliases one after the other.
  ghost predicate InOrder(before: seq<Column>, done: nat, aliases: map<string, string>, reserved: set<string>) {
    forall i :: 0 <= i < |before| && i < done && Unusable(before[i]) ==> GetsItsAlias(before, i, aliases, reserved)
  }

  ghost predicate GetsItsAlias(before: seq<Column>, i: nat, aliases: map<string, string>, reserved: set<string>)
    requires i < |before| && before[i].key.Some?
  {
    IsFree(reserved, Translate(aliases, before[i].key.value), CountInvalid(before[..i]))
  }

  // Every key that has one becomes valid.
  ghost predicate AllValid(columns: seq<Column>) {
    forall column :: column in columns && column.key.Some? ==> ValidKey(column.key.value)
  }

  /** A reference to a column before is a reference to the same column afterwards. */
  lemma ReferenceStillResolves(before: seq<Column>, after: seq<Column>, aliases: map<string, string>,
                               body: Node, r: nat, i: nat)
    requires IsRenaming(before, after, aliases)
    requires r < |References(body)| && i < |before| && before[i].key.Some? && References(body)[r] == before[i].key
    ensures |References(Rewrite(aliases, body))| == |References(body)|
    ensures References(Rewrite(aliases, body))[r] == after[i].key
    ensures forall j :: 0 <= j < |after| && after[j].key == after[i].key ==> j == i
  {
    RewriteTranslatesReferences(aliases, body);
  }

  /** A reference to no column at all is captured by a renamed column exactly if it is one of the first
      aliases that are no keys yet, of which there are as many as unusable keys. */
  lemma DanglingReferenceIsCapturedExactlyIf(before: seq<Column>, after: seq<Column>,
                                             aliases: map<string, string>, key: string)
    requires IsRenaming(before, after, aliases) && InOrder(before, |before|, aliases, Reserved(before))
    requires key !in KeySet(before)
    ensures Translate(aliases, key) in KeySet(after)
            <==> exists n :: n >= 1 && key == Field(n) && FreeBelow(Reserved(before), n) < CountInvalid(before)
  {
    hide ValidKey, Field;
    if key in KeySet(after) {
      CapturedIsEarly(before, after, aliases, key);
    }
    if n :| n >= 1 && key == Field(n) && FreeBelow(Reserved(before), n) < CountInvalid(before) {
      EarlyIsCaptured(before, after, aliases, n);
    }
  }

  lemma CapturedIsEarly(before: seq<Column>, after: seq<Column>, aliases: map<string, string>, key: string)
    requires IsRenaming(before, after, aliases) && InOrder(before, |before|, aliases, Reserved(before))
    requires key !in KeySet(before) && key in KeySet(after)
    ensures exists n :: n >= 1 && key == Field(n) && FreeBelow(Reserved(before), n) < CountInvalid(before)
  {
    hide ValidKey, Field, Reserved, CountInvalid, FreeBelow;
    var column :| column in after && column.key == Some(key);
    var i :| 0 <= i < |after| && after[i] == column;
    assert before[i] in before;
    var original := before[i].key.value;
    assert original in aliases && aliases[original] == key;
    assert GetsItsAlias(before, i, aliases, Reserved(before));
    CountInvalidOfPrefix(before, i);
  }

  lemma EarlyIsCaptured(before: seq<Column>, after: seq<Column>, aliases: map<string, string>, n: nat)
    requires IsRenaming(before, after, aliases) && InOrder(before, |before|, aliases, Reserved(before))
    requires n >= 1 && Field(n) !in KeySet(before) && FreeBelow(Reserved(before), n) < CountInvalid(before)
    ensures Field(n) in KeySet(after)
  {
    hide ValidKey, Field, CountInvalid, FreeBelow;
    var i := InvalidAt(before, FreeBelow(Reserved(before), n));
    assert GetsItsAlias(before, i, aliases, Reserved(before));
    var alias := Translate(aliases, before[i].key.value);
    var m :| m >= 1 && alias == Field(m) && alias !in Reserved(before)
             && FreeBelow(Reserved(before), m) == FreeBelow(Reserved(before), n);
    if m < n {
      FreeBelowGrows(Reserved(before), m, n);
    } else if n < m {
      FreeBelowGrows(Reserved(before), n, m);
    }
    assert after[i].key == Some(Field(n)) && after[i] in after;
  }

  /** With the one column "bad key", a reference to "field_1", which is no column, comes to refer to it. */
  lemma DanglingReferenceCanBeCaptured(after: seq<Column>, aliases: map<string, string>)
    requires var before := [Column(Some("bad key"), None)];
      IsRenaming(before, after, aliases) && InOrder(before, 1, aliases, Reserved(before))
    ensures "field_1" !in KeySet([Column(Some("bad key"), None)])
    ensures Translate(aliases, "field_1") in KeySet(after)
  {
    var before := [Column(Some("bad key"), None)];
    assert "bad key"[3] == ' ' && ' ' in "bad key" && Unusable(before[0]);
    assert before[..0] == [] && CountInvalid(before) == 1;
    assert Field(1) == "field_1" && FreeBelow(Reserved(before), 1) == 0;
    assert "field_1"[0] != "bad key"[0];
    DanglingReferenceIsCapturedExactlyIf(before, after, aliases, "field_1");
  }

  class ChartDraft {
    var columns: seq<Column>
    var body: Node

    constructor (columns: seq<Column>, body: Node)
      ensures this.columns == columns && this.body == body
    {
      this.columns, this.body := columns, body;
    }

    /** Renames every unusable key, and all references with it.  Keys that are valid stay, so a second
        pass changes nothing; duplicates are refused. */
    method NormalizeDatasetKeys() returns (refused: bool, aliases: map<string, string>)
      modifies this
      ensures refused <==> !UniqueKeys(old(columns))
      ensures refused ==> columns == old(columns) && body == old(body)
      ensures !refused ==>
                && IsRenaming(old(columns), columns, aliases) && body == Rewrite(aliases, old(body))
                && InOrder(old(columns), |old(columns)|, aliases, Reserved(old(columns)))
      ensures !refused && |Decimal(|columns|)| <= 58 ==> AllValid(columns)
      ensures !refused && AllValid(old(columns)) ==> columns == old(columns) && body == old(body)
    {
      aliases := map[];
      refused := !UniqueKeys(columns);
      if refused {
        return;
      }
      aliases := RenameColumns();
      if |aliases| > 0 {
        body := Rewrite(aliases, body);
      } else {
        RewriteWithoutAliases(body);
      }
    }

    method RenameColumns() returns (aliases: map<string, string>)
      requires UniqueKeys(columns)
      modifies this`columns
      ensures IsRenaming(old(columns), columns, aliases)
      ensures InOrder(old(columns), |old(columns)|, aliases, Reserved(old(columns)))
      ensures |Decimal(|columns|)| <= 58 ==> AllValid(columns)
      ensures AllValid(old(columns)) ==> aliases == map[] && columns == old(columns)
    {
      hide Reserved, ValidKey, Field, Renamed, Loop, IsRenaming, AllValid;
      ghost var before := columns;
      aliases := map[];
      var reserved := Reserved(columns);
      var used: set<string> := {};
      var next := 1;
      var i := 0;
      LoopBegins(before);
      while i < |columns|
        invariant i <= |columns| == |before| && next >= 1
        invariant columns[i..] == before[i..]
        invariant Loop(before, columns[..i], aliases, reserved, used, next)
      {
        var column := columns[i];
        ghost var done := columns[..i];
        assert column == columns[i..][0] && column == before[i];
        var alias: Option<string> := None;
        ghost var start := next;
        if column.key.Some? {
          var original := column.key.value;
          if ValidKey(original) && original !in used {
            alias := Some(original);
          } else {
            var n := NextAlias(next, reserved + used);
            next := n + 1;
            alias := Some(Field(n));
          }
        }
        LoopStep(before, done, aliases, reserved, used, start, alias, next);
        if column.key.Some? {
          used := used + {alias.value};
          if alias != column.key {
            columns := columns[i := Renamed(column, alias.value)];
            aliases := aliases[column.key.value := alias.value];
          }
        }
        OwnKeyStays(column);
        assert columns[..i + 1] == done + [WithKey(column, alias)];
        assert columns[i + 1..] == before[i..][1..];
        i := i + 1;
      }
      assert columns[..i] == columns;
      LoopEnds(before, columns, aliases, reserved, used, next);
    }
  }

  // The column under its alias, if it has a key.
  function WithKey(column: Column, alias: Option<string>): Column {
    if alias == None then column else Renamed(column, alias.value)
  }

  lemma OwnKeyStays(column: Column)
    ensures WithKey(column, column.key) == column && WithKey(column, None) == column
  {
  }

  function MoreAliases(aliases: map<string, string>, column: Column, alias: Option<string>): map<string, string> {
    if alias == column.key || alias == None || column.key == None then aliases
    else aliases[column.key.value := alias.value]
  }

  // `after` are the columns done so far.
  ghost predicate Loop(before: seq<Column>, after: seq<Column>, aliases: map<string, string>,
                       reserved: set<string>, used: set<string>, next: nat)
  {
    && |after| <= |before| && next >= 1 && reserved == Reserved(before)
    && IsRenaming(before[..|after|], after, aliases)
    && used == KeySet(after) && used * reserved <= KeySet(before[..|after|])
    && |reserved + used| <= |reserved| + CountInvalid(before[..|after|])
    && (forall k :: 1 <= k < next ==> Field(k) in reserved + used)
    && Aligned(before, |after|, aliases, reserved, used, next)
    && (|Decimal(|before|)| <= 58 ==> AllValid(after))
    && (AllValid(before) ==> aliases == map[] && after == before[..|after|])
  }

  // The aliases given so far are the free ones before `next`.
  ghost predicate Aligned(before: seq<Column>, done: nat, aliases: map<string, string>, reserved: set<string>,
                          used: set<string>, next: nat)
  {
    && done <= |before| && InOrder(before, done, aliases, reserved)
    && FreeBelow(reserved, next) == CountInvalid(before[..done])
    && NoneAhead(reserved, used, next)
  }

  ghost predicate NoneAhead(reserved: set<string>, used: set<string>, next: nat) {
    forall k :: k >= next && Field(k) in used ==> Field(k) in reserved
  }

  // The chosen alias is the first free one, and the aliases after it are still free.
  lemma ChosenIsNext(reserved: set<string>, used: set<string>, next: nat, next': nat)
    requires 1 <= next < next' && NoneAhead(reserved, used, next)
    requires Field(next' - 1) !in reserved + used && forall k :: next <= k < next' - 1 ==> Field(k) in reserved + used
    ensures IsFree(reserved, Field(next' - 1), FreeBelow(reserved, next))
    ensures FreeBelow(reserved, next') == FreeBelow(reserved, next) + 1
    ensures NoneAhead(reserved, used + {Field(next' - 1)}, next')
  {
    hide Field, NoneAhead;
    forall k | next <= k < next' - 1 ensures Field(k) in reserved {
      NotAhead(reserved, used, next, k);
    }
    FreeBelowStays(reserved, next, next' - 1);
    StillNoneAhead(reserved, used, next, next');
  }

  lemma NotAhead(reserved: set<string>, used: set<string>, next: nat, k: nat)
    requires NoneAhead(reserved, used, next) && k >= next && Field(k) in reserved + used
    ensures Field(k) in reserved
  {
  }

  lemma StillNoneAhead(reserved: set<string>, used: set<string>, next: nat, next': nat)
    requires NoneAhead(reserved, used, next) && next < next'
    ensures NoneAhead(reserved, used + {Field(next' - 1)}, next')
  {
    hide Field;
    forall k | k >= next' && Field(k) in used + {Field(next' - 1)} ensures Field(k) in reserved {
      if Field(k) == Field(next' - 1) {
        FieldsDiffer(k, next' - 1);
      }
    }
  }

  lemma OnlyOldKeys(before: seq<Column>, after: seq<Column>, aliases: map<string, string>)
    requires IsRenaming(before, after, aliases)
    ensures aliases.Keys <= KeySet(before)
  {
  }

  lemma AlignedStep(before: seq<Column>, done: nat, aliases: map<string, string>, reserved: set<string>,
                    used: set<string>, next: nat, alias: Option<string>, next': nat)
    requires done < |before| && Aligned(before, done, aliases, reserved, used, next) && next >= 1
    requires UniqueKeys(before) && reserved == Reserved(before)
    requires Chosen(before[done], alias, reserved, used, next, next')
    requires alias.Some? ==> alias == before[done].key || Unusable(before[done])
    requires aliases.Keys <= KeySet(before[..done])
    ensures Aligned(before, done + 1, MoreAliases(aliases, before[done], alias), reserved, used + AsSet(alias), next')
  {
    hide Field, ValidKey, FreeBelow, Reserved;
    var column, aliases' := before[done], MoreAliases(aliases, before[done], alias);
    assert before[..done + 1][..done] == before[..done];
    if column.key.Some? {
      KeyIsNew(before, done);
    }
    if Unusable(column) {
      ChosenIsNext(reserved, used, next, next');
    } else if column.key.Some? {
      KeyIsReserved(before, done);
    }
    forall i | 0 <= i < |before| && i < done + 1 && Unusable(before[i])
      ensures GetsItsAlias(before, i, aliases', reserved)
    {
      if i < done {
        assert GetsItsAlias(before, i, aliases, reserved);
        assert column.key.Some? ==> column.key != before[i].key;
      }
    }
  }

  lemma LoopBegins(before: seq<Column>)
    ensures Loop(before, [], map[], Reserved(before), {}, 1)
  {
  }

  lemma LoopEnds(before: seq<Column>, after: seq<Column>, aliases: map<string, string>, reserved: set<string>,
                 used: set<string>, next: nat)
    requires Loop(before, after, aliases, reserved, used, next) && |after| == |before|
    ensures IsRenaming(before, after, aliases) && InOrder(before, |before|, aliases, reserved)
    ensures |Decimal(|before|)| <= 58 ==> AllValid(after)
    ensures AllValid(before) ==> aliases == map[] && after == before
  {
    assert before[..|after|] == before;
  }

  // What the loop chooses: nothing for a column without key, its own key if that is valid and unused,
  // otherwise the first free alias.
  ghost predicate Chosen(column: Column, alias: Option<string>, reserved: set<string>, used: set<string>,
                         next: nat, next': nat)
  {
    if column.key == None then alias == None && next' == next
    else if ValidKey(column.key.value) && column.key.value !in used then alias == column.key && next' == next
    else
      && next < next' && alias == Some(Field(next' - 1)) && Field(next' - 1) !in reserved + used
      && forall k :: next <= k < next' - 1 ==> Field(k) in reserved + used
  }

  lemma LoopStep(before: seq<Column>, after: seq<Column>, aliases: map<string, string>, reserved: set<string>,
                 used: set<string>, next: nat, alias: Option<string>, next': nat)
    requires UniqueKeys(before) && Loop(before, after, aliases, reserved, used, next) && |after| < |before|
    requires Chosen(before[|after|], alias, reserved, used, next, next')
    ensures var column := before[|after|];
      Loop(before, after + [WithKey(column, alias)], MoreAliases(aliases, column, alias), reserved,
           used + AsSet(alias), next')
  {
    hide IsRenaming, Reserved, KeySet, CountInvalid, ValidKey, Field, Decimal, Chosen, UniqueKeys, AllValid, Aligned;
    var i, column := |after|, before[|after|];
    AllValidOfAppend(after, WithKey(column, alias));
    AllValidAt(before, i);
    assert before[..i + 1] == before[..i] + [column];
    KeySetOfAppend(before[..i], column);
    KeySetOfAppend(after, WithKey(column, alias));
    ChosenFits(before, i, reserved, used, next, alias, next');
    RenamingStep(before[..i], column, after, aliases, alias);
    OnlyOldKeys(before[..i], after, aliases);
    AlignedStep(before, i, aliases, reserved, used, next, alias, next');
    assert used + AsSet(alias) == KeySet(after + [WithKey(column, alias)]);
  }

  lemma AllValidOfAppend(columns: seq<Column>, column: Column)
    ensures AllValid(columns + [column]) <==> AllValid(columns) && (column.key.Some? ==> ValidKey(column.key.value))
  {
    assert column in columns + [column];
    assert forall one :: one in columns ==> one in columns + [column];
  }

  lemma AllValidAt(columns: seq<Column>, i: nat)
    requires i < |columns|
    ensures AllValid(columns) && columns[i].key.Some? ==> ValidKey(columns[i].key.value)
  {
    assert columns[i] in columns;
  }

  function AsSet(alias: Option<string>): set<string> {
    if alias.Some? then {alias.value} else {}
  }

  // The chosen key is new, valid, and counted.
  lemma ChosenFits(before: seq<Column>, i: nat, reserved: set<string>, used: set<string>, next: nat,
                   alias: Option<string>, next': nat)
    requires UniqueKeys(before) && i < |before| && reserved == Reserved(before)
    requires used * reserved <= KeySet(before[..i])
    requires |reserved + used| <= |reserved| + CountInvalid(before[..i])
    requires next >= 1 && forall k :: 1 <= k < next ==> Field(k) in reserved + used
    requires Chosen(before[i], alias, reserved, used, next, next')
    ensures next' >= 1 && (alias == None <==> before[i].key == None)
    ensures |reserved + (used + AsSet(alias))| <= |reserved| + CountInvalid(before[..i + 1])
    ensures forall k :: 1 <= k < next' ==> Field(k) in reserved + (used + AsSet(alias))
    ensures alias.Some? ==>
              && before[i].key.value !in KeySet(before[..i]) && alias.value !in used
              && (alias == before[i].key || (!ValidKey(before[i].key.value) && alias.value !in reserved))
              && (|Decimal(|before|)| <= 58 ==> ValidKey(alias.value))
  {
    hide Decimal, Field, ValidKey, UniqueKeys;
    assert before[..i + 1][..i] == before[..i];
    if before[i].key.Some? {
      var key := before[i].key.value;
      KeyIsNew(before, i);
      KeyIsReserved(before, i);
      if ValidKey(key) {
        assert reserved + (used + {key}) == reserved + used;
      } else {
        CountInvalidOfPrefix(before, i);
        ReservedAndInvalid(before);
        AliasFits(next' - 1, reserved + used, |before|);
        assert reserved + (used + {alias.value}) == reserved + used + {alias.value};
      }
    } else {
      assert reserved + (used + {}) == reserved + used;
    }
  }

  lemma KeyIsReserved(columns: seq<Column>, i: nat)
    requires i < |columns| && columns[i].key.Some?
    ensures columns[i].key.value in Reserved(columns) <==> ValidKey(columns[i].key.value)
  {
    assert columns[i] in columns;
  }

  lemma AliasFits(n: nat, taken: set<string>, columns: nat)
    requires n >= 1 && |taken| < columns && forall k :: 1 <= k < n ==> Field(k) in taken
    ensures |Decimal(columns)| <= 58 ==> ValidKey(Field(n))
  {
    AliasIsSmall(n, taken);
    LengthIsMonotone(n, columns);
    if |Decimal(n)| <= 58 {
      FieldIsValid(n);
    }
  }

  // One more column, under its own key or an alias.
  lemma RenamingStep(before: seq<Column>, column: Column, after: seq<Column>, aliases: map<string, string>,
                     alias: Option<string>)
    requires IsRenaming(before, after, aliases)
    requires column.key == None <==> alias == None
    requires alias.Some? ==>
               && column.key.value !in KeySet(before) && alias.value !in KeySet(after)
               && (alias == column.key || !ValidKey(column.key.value))
    ensures IsRenaming(before + [column], after + [WithKey(column, alias)], MoreAliases(aliases, column, alias))
  {
    KeySetOfAppend(before, column);
    var aliases' := MoreAliases(aliases, column, alias);
    forall i | 0 <= i < |before| && before[i].key.Some?
      ensures Translate(aliases', before[i].key.value) == Translate(aliases, before[i].key.value)
    {
      assert before[i] in before && before[i].key.value in KeySet(before);
    }
    forall i | 0 <= i < |after| && after[i].key.Some? ensures after[i].key.value in KeySet(after) {
      assert after[i] in after;
    }
  }
}
