/**
 * The users page: the account list read from storage (either the array the
 * authentication service writes or an object keyed by user name), the search box, and the
 * CSV export of the listed accounts. Cells are exported without quoting.
 */
module UsuariosComponent {
  import opened Wrappers
  import opened Text
  import opened Seqs
  import opened CsvReport

  /** One listed account: its name and its registration date text. */
  datatype UserRow = UserRow(username: string, registrationDate: string)

  /** A stored account as the page reads it; the date may be missing. */
  datatype StoredUser = StoredUser(username: string, registrationDate: Option<string>)

  /**
   * The stored list: the array form, or the object form whose entries are given in the
   * order `Object.keys` lists them.
   */
  datatype StoredUsers =
    | UserArray(users: seq<StoredUser>)
    | UserObject(entries: seq<StoredUser>)

  const NOT_AVAILABLE: string := "No disponible"

  const USER_HEADERS: seq<string> := ["Usuario", "Fecha de Registro"]

  /** `registrationDate || 'No disponible'`. */
  function DateOrDefault(d: Option<string>): (r: string)
    ensures r != ""
    ensures d.Some? && d.value != "" ==> r == d.value
    ensures !(d.Some? && d.value != "") ==> r == NOT_AVAILABLE
  {
    if d.Some? && d.value != "" then d.value else NOT_AVAILABLE
  }

  /** The listed rows: one per stored account, in stored order, with the date defaulted. */
  function RowsOf(data: StoredUsers): (rows: seq<UserRow>)
    ensures var stored := if data.UserArray? then data.users else data.entries;
      |rows| == |stored|
      && forall i :: 0 <= i < |rows| ==>
        rows[i].username == stored[i].username && rows[i].registrationDate == DateOrDefault(stored[i].registrationDate)
  {
    var stored := if data.UserArray? then data.users else data.entries;
    seq(|stored|, i requires 0 <= i < |stored| => UserRow(stored[i].username, DateOrDefault(stored[i].registrationDate)))
  }

  /** `user => user.username.toLowerCase().includes(term)` for an already lower-cased term. */
  function NameHas(term: string): UserRow -> bool {
    (u: UserRow) => Contains(Lower(u.username), term)
  }

  /** The cells of the export: name and date per listed row. */
  function ExportCells(rows: seq<UserRow>): (cells: seq<seq<string>>)
    ensures |cells| == |rows|
    ensures forall i :: 0 <= i < |rows| ==> cells[i] == [rows[i].username, rows[i].registrationDate]
  {
    seq(|rows|, i requires 0 <= i < |rows| => [rows[i].username, rows[i].registrationDate])
  }

  /** No name or date holds a comma or a line feed. */
  predicate PlainCells(rows: seq<UserRow>) {
    forall i :: 0 <= i < |rows| ==>
      ',' !in rows[i].username && '\n' !in rows[i].username
      && ',' !in rows[i].registrationDate && '\n' !in rows[i].registrationDate
  }

  /**
   * With plain cells the exported text reads back: one line per listed account after the
   * header, and each line splits at its comma into the name and the date.
   */
  lemma ExportReadsBack(rows: seq<UserRow>)
    requires PlainCells(rows)
    ensures var lines := Split(CsvContent(USER_HEADERS, ExportCells(rows)), '\n');
      |lines| == |rows| + 1
      && forall i :: 0 <= i < |rows| ==>
        Split(lines[i + 1], ',') == [rows[i].username, rows[i].registrationDate]
  {
    var cells := ExportCells(rows);
    CsvLines(USER_HEADERS, cells);
    forall i | 0 <= i < |rows|
      ensures Split(RowLines(cells)[i], ',') == [rows[i].username, rows[i].registrationDate]
    {
      SplitJoin(cells[i], ',');
    }
  }

  /**
   * Cells are not quoted: a date text holding a comma splits its line into three fields
   * under the two-column header.
   */
  lemma ExportShiftsColumns(username: string, before: string, after: string)
    requires ',' !in username && ',' !in before && ',' !in after
    ensures Split(Join([username, before + "," + after], ','), ',') == [username, before, after]
  {
    assert Join([username, before + "," + after], ',') == username + [','] + (before + [','] + after);
    SplitAtSeparator(username, ',', before + [','] + after);
    SplitAtSeparator(before, ',', after);
    SplitNoSeparator(after, ',');
  }

  /** The page's state. */
  class UsuariosPage {
    var users: seq<UserRow>
    var filteredUsers: seq<UserRow>
    var searchTerm: string

    constructor()
      ensures users == [] && filteredUsers == [] && searchTerm == ""
    {
      users := [];
      filteredUsers := [];
      searchTerm := "";
    }

    /** `loadUsers`: with nothing stored the lists stay as they are; otherwise both show every account. */
    method LoadUsers(stored: Option<StoredUsers>)
      modifies this
      ensures stored.None? ==> users == old(users) && filteredUsers == old(filteredUsers)
      ensures stored.Some? ==> users == RowsOf(stored.value) && filteredUsers == users
      ensures searchTerm == old(searchTerm)
    {
      if stored.Some? {
        users := RowsOf(stored.value);
        filteredUsers := users;
      }
    }

    /** `onSearchChange` after the search box changed to `term`: the accounts whose name contains it, ignoring case. */
    method OnSearchChange(term: string)
      modifies this
      ensures searchTerm == term && users == old(users)
      ensures filteredUsers == Filter(users, NameHas(Lower(term)))
      ensures term == "" ==> filteredUsers == users
    {
      searchTerm := term;
      filteredUsers := Filter(users, NameHas(Lower(term)));
      if term == "" {
        forall u | u in users
          ensures NameHas(Lower(term))(u)
        {
          ContainsEmpty(Lower(u.username));
        }
        FilterAll(users, NameHas(Lower(term)));
      }
    }

    /** `exportToCSV`: the file text for the listed accounts (the download itself is left out). */
    function ExportFile(): (f: string)
      reads this
      ensures |f| >= 1 && f[0] == '\U{FEFF}'
      ensures f[1..] == CsvContent(USER_HEADERS, ExportCells(filteredUsers))
    {
      CsvFile(USER_HEADERS, ExportCells(filteredUsers))
    }
  }
}
