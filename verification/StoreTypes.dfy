/** The records of types.ts and of the persistence layer, and the conversions between them. */
module StoreTypes {
  import opened Wrappers

  datatype TabKind = Browser | Terminal | Chat | File | Diff

  predicate TerminalKind(kind: TabKind) {
    kind.Terminal? || kind.Chat?
  }

  datatype Profile = Profile(id: string, name: string, color: Option<string>, isDefault: bool)

  datatype Space = Space(id: string, name: string, color: string, profileId: string, activeTabId: Option<string>)

  datatype Tab = Tab(
    id: string, kind: TabKind, title: string, url: string, spaceId: string,
    worktreeId: Option<string>, windowName: Option<string>, initialCommand: Option<string>,
    agentSessionId: Option<string>, loading: bool, favicon: Option<string>)
  {
    predicate TerminalLike() {
      TerminalKind(kind)
    }
  }

  datatype SpaceRow = SpaceRow(id: string, profileId: string, name: string, color: string, sortOrder: nat)

  datatype TabRow = TabRow(
    id: string, spaceId: string, kind: TabKind, title: string, sortOrder: nat, url: Option<string>,
    worktreeId: Option<string>, windowName: Option<string>, initialCommand: Option<string>,
    agentSessionId: Option<string>)

  /** A string that JavaScript treats as true. */
  predicate Truthy(s: Option<string>) {
    s.Some? && s.value != ""
  }

  function GetOr(s: Option<string>, default: string): string {
    if s.Some? then s.value else default
  }

  function DefaultUrl(kind: TabKind): string {
    match kind
    case Browser => "https://duckduckgo.com"
    case Terminal => "local://terminal"
    case Chat => "local://chat"
    case File => "local://file"
    case Diff => "local://diff"
  }

  function SpaceFromRow(s: SpaceRow): Space {
    Space(s.id, s.name, s.color, s.profileId, None)
  }

  function SpaceToRow(s: Space, sortOrder: nat): SpaceRow {
    SpaceRow(s.id, s.profileId, s.name, s.color, sortOrder)
  }

  function TabFromRow(t: TabRow): Tab {
    Tab(t.id, t.kind, t.title, GetOr(t.url, DefaultUrl(t.kind)), t.spaceId,
        t.worktreeId, t.windowName, t.initialCommand, t.agentSessionId, t.kind.Browser?, None)
  }

  function TabToRow(t: Tab, sortOrder: nat): TabRow {
    TabRow(t.id, t.spaceId, t.kind, t.title, sortOrder, Some(t.url),
           t.worktreeId, t.windowName, t.initialCommand, t.agentSessionId)
  }

  /** A row is its tab's, up to the sort order. */
  predicate RowOf(row: TabRow, t: Tab) {
    row == TabToRow(t, row.sortOrder)
  }

  /** What of a tab survives a quit: everything but the loading state and the favicon. */
  function Durable(t: Tab): Tab {
    t.(loading := t.kind.Browser?, favicon := None)
  }

  /** The first space with the id, as `find` returns it. */
  function FindSpace(spaces: seq<Space>, id: string): (sp: Option<Space>)
    ensures sp.Some? ==> sp.value in spaces && sp.value.id == id
    ensures sp.None? ==> forall s | s in spaces :: s.id != id
  {
    if spaces == [] then None
    else if spaces[0].id == id then Some(spaces[0])
    else FindSpace(spaces[1..], id)
  }
}
