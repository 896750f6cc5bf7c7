/**
 * The shared table: the substring-based status colouring, the rendering of one cell (booleans in
 * status and verified columns become "Verified"/"Pending" badges), and the empty-table row.
 */
module DataTable {
  import opened Optional
  import opened Text
  import opened Entities

  /** The badge colours used by the tables and cards. */
  datatype Tone = Green | Yellow | Red | Gray | Blue

  /** `hay` includes at least one of `words`. */
  predicate ContainsAny(hay: string, words: seq<string>) {
    exists i | 0 <= i < |words| :: Contains(hay, words[i])
  }

  const GreenWords := ["active", "delivered", "verified"]
  const YellowWords := ["transit", "pending"]
  const RedWords := ["maintenance", "cancelled", "rejected"]

  lemma ContainsAnyCases(l: string)
    ensures ContainsAny(l, GreenWords) <==>
              Contains(l, "active") || Contains(l, "delivered") || Contains(l, "verified")
    ensures ContainsAny(l, YellowWords) <==> Contains(l, "transit") || Contains(l, "pending")
    ensures ContainsAny(l, RedWords) <==>
              Contains(l, "maintenance") || Contains(l, "cancelled") || Contains(l, "rejected")
  {
    assert GreenWords[0] == "active" && GreenWords[1] == "delivered" && GreenWords[2] == "verified";
    assert YellowWords[0] == "transit" && YellowWords[1] == "pending";
    assert RedWords[0] == "maintenance" && RedWords[1] == "cancelled" && RedWords[2] == "rejected";
  }

  /** `needle` is absent when no window of `hay` starts with its first two characters. */
  lemma Absent(hay: string, needle: string)
    requires |needle| >= 2
    requires forall i | 0 <= i <= |hay| - |needle| :: hay[i] != needle[0] || hay[i + 1] != needle[1]
    ensures !Contains(hay, needle)
  {
    forall i | 0 <= i <= |hay| - |needle| ensures !OccursAt(hay, needle, i) {
      assert hay[i..i + |needle|][0] == hay[i] && hay[i..i + |needle|][1] == hay[i + 1];
    }
  }

  /** `status?.toLowerCase() || ''`. */
  function LoweredStatus(status: Option<string>): string {
    if status.Some? then Lower(status.value) else ""
  }

  /**
   * `getStatusColor`: the first matching group wins, green before yellow before red; a missing
   * status, or one matching no group, is gray.
   */
  function StatusTone(status: Option<string>): (t: Tone)
    ensures var l := LoweredStatus(status);
            && (t == Green <==> ContainsAny(l, GreenWords))
            && (t == Yellow <==> !ContainsAny(l, GreenWords) && ContainsAny(l, YellowWords))
            && (t == Red <==> !ContainsAny(l, GreenWords) && !ContainsAny(l, YellowWords)
                              && ContainsAny(l, RedWords))
            && t != Blue
    ensures status.None? ==> t == Gray
  {
    var l := LoweredStatus(status);
    ContainsAnyCases(l);
    if Contains(l, "active") || Contains(l, "delivered") || Contains(l, "verified") then Green
    else if Contains(l, "transit") || Contains(l, "pending") then Yellow
    else if Contains(l, "maintenance") || Contains(l, "cancelled") || Contains(l, "rejected") then Red
    else Gray
  }

  /** The colouring ignores the case of ASCII letters. */
  lemma StatusToneCaseInsensitive(s: string, t: string)
    requires Lower(s) == Lower(t)
    ensures StatusTone(Some(s)) == StatusTone(Some(t))
  {
  }

  lemma StatusToneIgnoresCase(s: string)
    ensures StatusTone(Some(Lower(s))) == StatusTone(Some(s))
  {
    LowerIdempotent(s);
  }

  /** A field value as the table sees it. */
  datatype Value = Undefined | Str(s: string) | Flag(b: bool)

  /** A record viewed as a JavaScript object: `row[key]` is `Undefined` for a missing key. */
  type Row = map<string, Value>

  function Field(row: Row, key: string): Value {
    if key in row then row[key] else Undefined
  }

  datatype Column = Column(key: string, heading: string)

  datatype Cell =
    | Badge(text: Option<string>, tone: Tone)   // status pill
    | ActionMenu(labels: seq<string>)           // dropdown with one item per action
    | Plain(value: Value)                       // the raw field value

  /** The text a status or verified cell shows: booleans become "Verified" / "Pending". */
  function StatusText(v: Value): (r: Option<string>)
    ensures v.Flag? ==> r == Some(if v.b then "Verified" else "Pending")
    ensures v.Str? ==> r == Some(v.s)
    ensures v.Undefined? ==> r == None
  {
    match v
    case Flag(b) => Some(if b then "Verified" else "Pending")
    case Str(s) => Some(s)
    case Undefined => None
  }

  /**
   * `renderCellContent`: status and verified columns show a coloured badge, the actions column
   * (when actions are supplied) a menu, and every other column the raw value.
   */
  function RenderCell(row: Row, column: Column, actions: Option<seq<string>>): (c: Cell)
    ensures column.key == "status" || column.key == "verified" ==>
              c == Badge(StatusText(Field(row, column.key)), StatusTone(StatusText(Field(row, column.key))))
    ensures column.key == "actions" && actions.Some? ==> c == ActionMenu(actions.value)
    ensures column.key != "status" && column.key != "verified" && !(column.key == "actions" && actions.Some?) ==>
              c == Plain(Field(row, column.key))
  {
    var value := Field(row, column.key);
    if column.key == "status" || column.key == "verified" then
      var text := StatusText(value);
      Badge(text, StatusTone(text))
    else if column.key == "actions" && actions.Some? then ActionMenu(actions.value)
    else Plain(value)
  }

  datatype Body =
    | NoData(colSpan: nat)             // one "No data available." row spanning every column
    | Rows(cells: seq<seq<Cell>>)

  /** The table body: one rendered row per record, or the single placeholder row. */
  function RenderBody(rows: seq<Row>, columns: seq<Column>, actions: Option<seq<string>>): (b: Body)
    ensures b.NoData? <==> |rows| == 0
    ensures b.NoData? ==> b.colSpan == |columns|
    ensures b.Rows? ==>
              && |b.cells| == |rows|
              && forall i | 0 <= i < |rows| ::
                   |b.cells[i]| == |columns|
                   && forall j | 0 <= j < |columns| :: b.cells[i][j] == RenderCell(rows[i], columns[j], actions)
  {
    if |rows| == 0 then NoData(|columns|)
    else Rows(seq(|rows|, i requires 0 <= i < |rows| =>
                seq(|columns|, j requires 0 <= j < |columns| => RenderCell(rows[i], columns[j], actions))))
  }

  function OptionalStr(key: string, v: Option<string>): Row {
    if v.Some? then map[key := Str(v.value)] else map[]
  }

  /** A user as the table sees it; absent keys stay absent. */
  function UserRow(u: User): Row {
    map["id" := Str(u.id), "name" := Str(u.name), "email" := Str(u.email), "role" := Str(u.role)]
    + OptionalStr("password", u.password)
    + (if u.verified.Some? then map["verified" := Flag(u.verified.value)] else map[])
  }

  /** The users table's verified column: approved green, pending yellow, missing flag gray. */
  lemma VerifiedBadge(u: User)
    ensures var c := RenderCell(UserRow(u), Column("verified", "Status"), None);
            && (u.verified == Some(true) ==> c == Badge(Some("Verified"), Green))
            && (u.verified == Some(false) ==> c == Badge(Some("Pending"), Yellow))
            && (u.verified == None ==> c == Badge(None, Gray))
  {
    assert "verified" == Lower("Verified");
    assert OccursAt("verified", "verified", 0);
    assert "pending" == Lower("Pending");
    assert OccursAt("pending", "pending", 0);
    NotContainsPending();
  }

  lemma NotContainsPending()
    ensures !ContainsAny("pending", GreenWords)
  {
    Absent("pending", "active");
    Absent("pending", "delivered");
    Absent("pending", "verified");
    ContainsAnyCases("pending");
  }

  /** The four booking statuses the application writes, as the table colours them. */
  lemma BookingStatusTones()
    ensures StatusTone(Some(StatusPending)) == Yellow
    ensures StatusTone(Some(StatusInTransit)) == Yellow
    ensures StatusTone(Some(StatusDelivered)) == Green
    ensures StatusTone(Some(StatusCancelled)) == Red
  {
    PendingTone();
    InTransitTone();
    assert Lower(StatusDelivered) == "delivered";
    assert OccursAt("delivered", "delivered", 0);
    CancelledTone();
  }

  lemma PendingTone()
    ensures StatusTone(Some(StatusPending)) == Yellow
  {
    assert Lower(StatusPending) == "pending";
    assert OccursAt("pending", "pending", 0);
    NotContainsPending();
  }

  lemma InTransitTone()
    ensures StatusTone(Some(StatusInTransit)) == Yellow
  {
    assert Lower(StatusInTransit) == "in transit";
    assert OccursAt("in transit", "transit", 3);
    Absent("in transit", "active");
    Absent("in transit", "delivered");
    Absent("in transit", "verified");
    ContainsAnyCases("in transit");
  }

  lemma CancelledTone()
    ensures StatusTone(Some(StatusCancelled)) == Red
  {
    assert Lower(StatusCancelled) == "cancelled";
    assert OccursAt("cancelled", "cancelled", 0);
    Absent("cancelled", "active");
    Absent("cancelled", "delivered");
    Absent("cancelled", "verified");
    Absent("cancelled", "transit");
    Absent("cancelled", "pending");
    ContainsAnyCases("cancelled");
  }

  /** Substring matching colours "Inactive" green, since it contains "active". */
  lemma InactiveIsGreen()
    ensures StatusTone(Some("Inactive")) == Green
  {
    assert Lower("Inactive") == "inactive";
    assert OccursAt("inactive", "active", 2);
  }
}
