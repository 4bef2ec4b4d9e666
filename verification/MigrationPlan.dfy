/**
 * The migration's planner: what it proposes for one source organization, and everything it refuses
 * to guess. Timestamps arrive parsed; None is an unreadable one.
 */
module MigrationPlan {
  import opened Wrappers
  import opened Strings
  import Sorting
  import TaxId

  /** A readable timestamp, or the given one. */
  function Or(t: Option<int>, fallback: int): int {
    if t.Some? then t.value else fallback
  }

  datatype DfeOrg = DfeOrg(pk: string, name: string, ownerUserId: string, createdAt: Option<int>)

  datatype DfeMember = DfeMember(userId: string, name: string, role: string, permissions: seq<string>,
                                 invitedBy: string, createdAt: Option<int>)

  datatype Role = Owner | Admin | Member | Viewer

  /** A planned membership or, with the role left out, a planned actor. */
  datatype Membership = Membership(userId: string, name: string, role: Role, invitedBy: string, createdAt: int)

  datatype Actor = Actor(userId: string, name: string, grantedBy: string, createdAt: int)

  datatype Review =
    | NoName | NoOwner | OwnerMissing(owner: string)
    | RowWithoutUser | UnknownRole(user: string, role: string)
      | ExtraPermissions(user: string, permissions: seq<string>)
    | UserMissing(user: string) | OwnersDisagree(row: string, owner: string) | ManyOwners(count: nat)
    | NoDocument(pk: string) | InvalidDocument(raw: string) | NoLegalName | NobodyActs

  datatype Note = UnreadableDate | NoOwnerRow

  datatype Decision = Decision(sourceRef: string, displayName: string, owner: string, createdAt: int, ownerName: string,
                               create: bool, review: seq<Review>, notes: seq<Note>, members: seq<Membership>)

  function UpperChar(c: char): char {
    if 'a' <= c <= 'z' then (c as int - 'a' as int + 'A' as int) as char else c
  }

  function ToUpper(s: string): string {
    seq(|s|, i requires 0 <= i < |s| => UpperChar(s[i]))
  }

  function MapRole(dfeRole: string): Option<Role> {
    match ToUpper(TrimSpace(dfeRole))
    case "OWNER" => Some(Owner)
    case "ADMIN" => Some(Admin)
    case "USER" => Some(Member)
    case "VIEWER" => Some(Viewer)
    case _ => None
  }

  /** The text is that name, up to the case of ASCII letters and blanks around it. */
  predicate Spells(text: string, name: string) {
    var t := TrimSpace(text);
    |t| == |name| && forall i :: 0 <= i < |t| ==> t[i] == name[i] || UpperChar(t[i]) == name[i]
  }

  lemma SpellsUpper(text: string, name: string)
    requires forall i :: 0 <= i < |name| ==> UpperChar(name[i]) == name[i]
    ensures Spells(text, name) <==> ToUpper(TrimSpace(text)) == name
  {
    hide TrimSpace;
    var t, u := TrimSpace(text), ToUpper(TrimSpace(text));
    assert |u| == |t| && forall i :: 0 <= i < |t| ==> u[i] == UpperChar(t[i]);
    if Spells(text, name) {
      assert forall i :: 0 <= i < |t| ==> UpperChar(t[i]) == name[i];
      assert u == name;
    }
    if u == name {
      assert forall i :: 0 <= i < |t| ==> u[i] == name[i];
    }
  }

  /** The four roles of the old system and what becomes of them; any other text has no equivalent. */
  lemma RolesMap(text: string)
    ensures Spells(text, "OWNER") ==> MapRole(text) == Some(Owner)
    ensures Spells(text, "ADMIN") ==> MapRole(text) == Some(Admin)
    ensures Spells(text, "USER") ==> MapRole(text) == Some(Member)
    ensures Spells(text, "VIEWER") ==> MapRole(text) == Some(Viewer)
    ensures MapRole(text).Some? ==>
              Spells(text, "OWNER") || Spells(text, "ADMIN") || Spells(text, "USER") || Spells(text, "VIEWER")
  {
    hide Spells, TrimSpace, ToUpper;
    SpellsUpper(text, "OWNER");
    SpellsUpper(text, "ADMIN");
    SpellsUpper(text, "USER");
    SpellsUpper(text, "VIEWER");
  }

  // ---------------------------------------------------------------- what each row is

  /** How the planner reads one row: a question, the owner's row, or a member to write. */
  datatype Row = Question(item: Review) | OwnerRow(user: string, name: string) | MemberRow(member: Membership)

  function ReadRow(m: DfeMember, users: set<string>, created: int): Row {
    var user := TrimSpace(m.userId);
    var role := MapRole(m.role);
    if user == "" then Question(RowWithoutUser)
    else if role.None? then Question(UnknownRole(user, m.role))
    else if m.permissions != [] then Question(ExtraPermissions(user, m.permissions))
    else if user !in users then Question(UserMissing(user))
    else if role.value == Owner then OwnerRow(user, TrimSpace(m.name))
    else MemberRow(Membership(user, TrimSpace(m.name), role.value, TrimSpace(m.invitedBy), Or(m.createdAt, created)))
  }

  function MembersOf(rows: seq<DfeMember>, users: set<string>, created: int): seq<Membership> {
    if rows == [] then []
    else
      var last := ReadRow(rows[|rows| - 1], users, created);
      MembersOf(rows[..|rows| - 1], users, created) + (if last.MemberRow? then [last.member] else [])
  }

  function OwnersOf(rows: seq<DfeMember>, users: set<string>, created: int): seq<Row> {
    if rows == [] then []
    else
      var last := ReadRow(rows[|rows| - 1], users, created);
      OwnersOf(rows[..|rows| - 1], users, created) + (if last.OwnerRow? then [last] else [])
  }

  /** When each question is asked about a row, in this order of precedence; and what the other rows say. */
  lemma RowIsReadAs(m: DfeMember, users: set<string>, created: int)
    ensures var row, user := ReadRow(m, users, created), TrimSpace(m.userId);
            && (row == Question(RowWithoutUser) <==> user == "")
            && (row == Question(UnknownRole(user, m.role)) <==> user != "" && MapRole(m.role).None?)
            && (row == Question(ExtraPermissions(user, m.permissions)) <==>
                user != "" && MapRole(m.role).Some? && m.permissions != [])
            && (row == Question(UserMissing(user)) <==>
                user != "" && MapRole(m.role).Some? && m.permissions == [] && user !in users)
            && (row == OwnerRow(user, TrimSpace(m.name)) <==>
                user != "" && MapRole(m.role) == Some(Owner) && m.permissions == [] && user in users)
            && (row.MemberRow? <==>
                user != "" && MapRole(m.role).Some? && MapRole(m.role) != Some(Owner) && m.permissions == []
                && user in users)
            && (row.MemberRow? ==>
                  && row.member.userId == user && row.member.name == TrimSpace(m.name)
                  && Some(row.member.role) == MapRole(m.role) && row.member.invitedBy == TrimSpace(m.invitedBy)
                  && row.member.createdAt == if m.createdAt.Some? then m.createdAt.value else created)
  {
    hide TrimSpace, MapRole;
  }

  /** Nothing about the organization or its rows needs a human. */
  ghost predicate Clear(org: DfeOrg, rows: seq<DfeMember>, users: set<string>, created: int) {
    var owner := TrimSpace(org.ownerUserId);
    && TrimSpace(org.name) != ""
    && owner != "" && owner in users
    && (forall i :: 0 <= i < |rows| ==> RowIsClear(rows[i], users, created, owner))
    && |OwnersOf(rows, users, created)| <= 1
  }

  predicate RowIsClear(m: DfeMember, users: set<string>, created: int, owner: string) {
    var row := ReadRow(m, users, created);
    !row.Question? && (row.OwnerRow? ==> owner == "" || row.user == owner)
  }

  lemma {:induction false} OwnersAreOwnerRows(rows: seq<DfeMember>, users: set<string>, created: int)
    ensures forall o :: o in OwnersOf(rows, users, created) ==> o.OwnerRow?
  {
    if rows != [] {
      OwnersAreOwnerRows(rows[..|rows| - 1], users, created);
    }
  }

  /** What is asked about one row. */
  function Asked(row: Row, owner: string): seq<Review> {
    match row
    case Question(item) => [item]
    case OwnerRow(user, _) => if owner != "" && user != owner then [OwnersDisagree(user, owner)] else []
    case MemberRow(_) => []
  }

  /** Everything asked about the rows, in row order. */
  function AskedOf(rows: seq<DfeMember>, users: set<string>, created: int, owner: string): seq<Review> {
    if rows == [] then []
    else AskedOf(rows[..|rows| - 1], users, created, owner) + Asked(ReadRow(rows[|rows| - 1], users, created), owner)
  }

  /** Nothing is asked exactly when every row is clear. */
  lemma {:induction false} AskedNothingIff(rows: seq<DfeMember>, users: set<string>, created: int, owner: string)
    ensures AskedOf(rows, users, created, owner) == [] <==>
            forall k :: 0 <= k < |rows| ==> RowIsClear(rows[k], users, created, owner)
  {
    hide ReadRow;
    if rows != [] {
      var front := rows[..|rows| - 1];
      AskedNothingIff(front, users, created, owner);
      assert forall k :: 0 <= k < |front| ==> front[k] == rows[k];
      assert Asked(ReadRow(rows[|rows| - 1], users, created), owner) == [] <==>
          RowIsClear(rows[|rows| - 1], users, created, owner);
    }
  }

  lemma OneMoreRow(rows: seq<DfeMember>, i: nat, users: set<string>, created: int, owner: string)
    requires i < |rows|
    ensures var row := ReadRow(rows[i], users, created);
            && AskedOf(rows[..i + 1], users, created, owner) ==
                 AskedOf(rows[..i], users, created, owner) + Asked(row, owner)
            && MembersOf(rows[..i + 1], users, created) ==
                 MembersOf(rows[..i], users, created) + (if row.MemberRow? then [row.member] else [])
            && OwnersOf(rows[..i + 1], users, created) ==
                 OwnersOf(rows[..i], users, created) + (if row.OwnerRow? then [row] else [])
  {
    hide ReadRow;
    assert rows[..i + 1][..i] == rows[..i];
  }

  /** How many owner rows name somebody other than the owner. */
  function Disagreeing(owners: seq<Row>, owner: string): nat {
    if owners == [] then 0
    else Disagreeing(owners[..|owners| - 1], owner) + |Asked(owners[|owners| - 1], owner)|
  }

  lemma {:induction false} RowsCount(rows: seq<DfeMember>, users: set<string>, created: int, owner: string)
    ensures |AskedOf(rows, users, created, owner)| + |MembersOf(rows, users, created)|
            + |OwnersOf(rows, users, created)|
            == |rows| + Disagreeing(OwnersOf(rows, users, created), owner)
  {
    hide ReadRow;
    if rows != [] {
      var front, row := rows[..|rows| - 1], ReadRow(rows[|rows| - 1], users, created);
      RowsCount(front, users, created, owner);
      if row.OwnerRow? {
        assert (OwnersOf(front, users, created) + [row])[..|OwnersOf(front, users, created)|] ==
            OwnersOf(front, users, created);
      } else {
        assert OwnersOf(rows, users, created) == OwnersOf(front, users, created);
      }
    }
  }

  lemma {:induction false} RowsGrow(rows: seq<DfeMember>, i: nat, users: set<string>, created: int, owner: string)
    requires i <= |rows|
    ensures MembersOf(rows[..i], users, created) <= MembersOf(rows, users, created)
    ensures OwnersOf(rows[..i], users, created) <= OwnersOf(rows, users, created)
    ensures AskedOf(rows[..i], users, created, owner) <= AskedOf(rows, users, created, owner)
  {
    hide ReadRow, Asked;
    if i < |rows| {
      RowsGrow(rows[..|rows| - 1], i, users, created, owner);
      assert rows[..|rows| - 1][..i] == rows[..i];
    } else {
      assert rows[..i] == rows;
    }
  }

  predicate StandsAfter<T(==)>(list: seq<T>, before: seq<T>, x: T) {
    |before| < |list| && list[|before|] == x
  }

  /** Also of a refused plan: every row is reported exactly once for what it is, in row order. A row that
      raises a question puts it right after those of the rows before it; so does an owner row that names
      somebody else, which also stands among the owner rows; a member stands among the members. The three
      lists hold nothing else: together they are as long as the rows, but for those disagreeing owners. */
  lemma EveryRowIsReported(rows: seq<DfeMember>, users: set<string>, created: int, owner: string, i: nat)
    requires i < |rows|
    ensures var row, before := ReadRow(rows[i], users, created), rows[..i];
            && (row.Question? ==>
                StandsAfter(AskedOf(rows, users, created, owner), AskedOf(before, users, created, owner), row.item))
            && (row.OwnerRow? ==> StandsAfter(OwnersOf(rows, users, created), OwnersOf(before, users, created), row))
            && (row.OwnerRow? && owner != "" && row.user != owner ==>
                  StandsAfter(AskedOf(rows, users, created, owner), AskedOf(before, users, created, owner),
                              OwnersDisagree(row.user, owner)))
            && (row.MemberRow? ==>
                StandsAfter(MembersOf(rows, users, created), MembersOf(before, users, created), row.member))
    ensures |AskedOf(rows, users, created, owner)| + |MembersOf(rows, users, created)|
            + |OwnersOf(rows, users, created)|
            == |rows| + Disagreeing(OwnersOf(rows, users, created), owner)
  {
    RowsCount(rows, users, created, owner);
    hide ReadRow, MembersOf, OwnersOf, AskedOf, Disagreeing;
    OneMoreRow(rows, i, users, created, owner);
    RowsGrow(rows, i + 1, users, created, owner);
  }

  /** The planner's view of the rows: what is asked about them, who owns, who becomes a member. */
  method ReadRows(rows: seq<DfeMember>, users: set<string>, created: int, owner: string)
    returns (review: seq<Review>, owners: seq<Row>, members: seq<Membership>)
    ensures owners == OwnersOf(rows, users, created)
    ensures members == MembersOf(rows, users, created)
    ensures review == AskedOf(rows, users, created, owner)
  {
    hide TrimSpace, MapRole, OwnersOf, MembersOf, AskedOf;
    review, owners, members := [], [], [];
    NoRows(users, created, owner);
    assert rows[..0] == [];
    for i := 0 to |rows|
      invariant owners == OwnersOf(rows[..i], users, created)
      invariant members == MembersOf(rows[..i], users, created)
      invariant review == AskedOf(rows[..i], users, created, owner)
    {
      var m := rows[i];
      OneMoreRow(rows, i, users, created, owner);
      var user := TrimSpace(m.userId);
      if user == "" {
        review := review + [RowWithoutUser];
        continue;
      }
      var role := MapRole(m.role);
      if role.None? {
        review := review + [UnknownRole(user, m.role)];
        continue;
      }
      if |m.permissions| > 0 {
        review := review + [ExtraPermissions(user, m.permissions)];
        continue;
      }
      if user !in users {
        review := review + [UserMissing(user)];
        continue;
      }
      if role.value == Owner {
        owners := owners + [OwnerRow(user, TrimSpace(m.name))];
        if owner != "" && user != owner {
          review := review + [OwnersDisagree(user, owner)];
        }
        continue;
      }
      var memberCreated := Or(m.createdAt, created);
      members := members + [Membership(user, TrimSpace(m.name), role.value, TrimSpace(m.invitedBy), memberCreated)];
    }
    assert rows[..|rows|] == rows;
  }

  lemma NoRows(users: set<string>, created: int, owner: string)
    ensures OwnersOf([], users, created) == [] && MembersOf([], users, created) == []
    ensures AskedOf([], users, created, owner) == []
  {}

  predicate LastOwnerRow(rows: seq<DfeMember>, users: set<string>, created: int, i: nat)
    requires i < |rows|
  {
    && ReadRow(rows[i], users, created).OwnerRow?
    && forall j :: i < j < |rows| ==> !ReadRow(rows[j], users, created).OwnerRow?
  }

  /** The last owner row says the owner's name; without one it is empty. */
  ghost predicate NameOfLastOwnerRow(rows: seq<DfeMember>, users: set<string>, created: int, name: string) {
    && ((forall i :: 0 <= i < |rows| ==> !ReadRow(rows[i], users, created).OwnerRow?) ==> name == "")
    && forall i :: 0 <= i < |rows| && LastOwnerRow(rows, users, created, i) ==> name == TrimSpace(rows[i].name)
  }

  lemma OwnerNameIsLast(rows: seq<DfeMember>, users: set<string>, created: int)
    ensures NameOfLastOwnerRow(rows, users, created, LastName(OwnersOf(rows, users, created)))
  {
    hide ReadRow, OwnersOf, LastOwnerRow, LastName;
    forall i | 0 <= i < |rows| && LastOwnerRow(rows, users, created, i)
      ensures LastName(OwnersOf(rows, users, created)) == TrimSpace(rows[i].name) {
      LastOwnerNames(rows, users, created, i);
    }
    if forall i :: 0 <= i < |rows| ==> !ReadRow(rows[i], users, created).OwnerRow? {
      NoOwnerNoName(rows, users, created);
    }
  }

  lemma {:induction false} NoOwnerNoName(rows: seq<DfeMember>, users: set<string>, created: int)
    requires forall i :: 0 <= i < |rows| ==> !ReadRow(rows[i], users, created).OwnerRow?
    ensures OwnersOf(rows, users, created) == [] && LastName(OwnersOf(rows, users, created)) == ""
  {
    hide ReadRow;
    if rows != [] {
      assert forall i :: 0 <= i < |rows| - 1 ==> rows[..|rows| - 1][i] == rows[i];
      NoOwnerNoName(rows[..|rows| - 1], users, created);
    }
  }

  lemma {:induction false} LastOwnerNames(rows: seq<DfeMember>, users: set<string>, created: int, i: nat)
    requires i < |rows| && LastOwnerRow(rows, users, created, i)
    ensures LastName(OwnersOf(rows, users, created)) == TrimSpace(rows[i].name)
  {
    hide TrimSpace, MapRole;
    if i < |rows| - 1 {
      LastOwnerNames(rows[..|rows| - 1], users, created, i);
      assert !ReadRow(rows[|rows| - 1], users, created).OwnerRow?;
      assert OwnersOf(rows, users, created) == OwnersOf(rows[..|rows| - 1], users, created);
    }
  }

  /** planOrg reports every row it does not import, so it creates exactly when nothing needs a human. */
  method PlanOrg(org: DfeOrg, rows: seq<DfeMember>, users: set<string>, now: int) returns (d: Decision)
    ensures d.sourceRef == org.pk && d.displayName == TrimSpace(org.name) && d.owner == TrimSpace(org.ownerUserId)
    ensures d.createdAt == Or(org.createdAt, now)
    ensures d.create <==> d.review == []
    ensures d.create <==> Clear(org, rows, users, d.createdAt)
    ensures d.members == SortedMembers(MembersOf(rows, users, d.createdAt))
    ensures d.ownerName == LastName(OwnersOf(rows, users, d.createdAt))
    ensures d.review ==
            (if d.displayName == "" then [NoName] else [])
            + (if d.owner == "" then [NoOwner] else if d.owner !in users then [OwnerMissing(d.owner)] else [])
            + AskedOf(rows, users, d.createdAt, d.owner)
            + (var owners := |OwnersOf(rows, users, d.createdAt)|; if owners > 1 then [ManyOwners(owners)] else [])
    ensures NameOfLastOwnerRow(rows, users, d.createdAt, d.ownerName)
    ensures UnreadableDate in d.notes <==> org.createdAt.None?
    ensures NoOwnerRow in d.notes <==> OwnersOf(rows, users, d.createdAt) == [] && d.owner != ""
  {
    hide TrimSpace, MapRole, ReadRow, OwnersOf, MembersOf, SortedMembers, RowIsClear, AskedOf, NameOfLastOwnerRow,
      LastName;
    var review: seq<Review> := [];
    var notes: seq<Note> := [];
    var displayName, owner := TrimSpace(org.name), TrimSpace(org.ownerUserId);
    if displayName == "" {
      review := review + [NoName];
    }
    if org.createdAt.None? {
      notes := notes + [UnreadableDate];
    }
    var created := Or(org.createdAt, now);
    if owner == "" {
      review := review + [NoOwner];
    } else if owner !in users {
      review := review + [OwnerMissing(owner)];
    }
    assert review == (if displayName == "" then [NoName] else [])
                     + (if owner == "" then [NoOwner] else if owner !in users then [OwnerMissing(owner)] else []);
    var items, owners, members := ReadRows(rows, users, created, owner);
    AskedNothingIff(rows, users, created, owner);
    review := review + items;
    if |owners| > 1 {
      review := review + [ManyOwners(|owners|)];
    }
    if |owners| == 0 && owner != "" {
      notes := notes + [NoOwnerRow];
    }
    OwnerNameIsLast(rows, users, created);
    d := Decision(org.pk, displayName, owner, created, LastName(owners), |review| == 0, review, notes,
                  SortedMembers(members));
  }

  function SortedMembers(members: seq<Membership>): seq<Membership> {
    Sorting.SortBy((m: Membership) => m.userId, members)
  }

  function LastName(owners: seq<Row>): string {
    if owners != [] && owners[|owners| - 1].OwnerRow? then owners[|owners| - 1].name else ""
  }

  // ---------------------------------------------------------------- nothing lost, nothing invented

  predicate PlannedFrom(m: Membership, row: DfeMember, users: set<string>, created: int) {
    && m.userId == TrimSpace(row.userId) && m.userId != "" && m.userId in users
    && MapRole(row.role) == Some(m.role) && m.role != Owner
    && row.permissions == []
    && m.name == TrimSpace(row.name) && m.invitedBy == TrimSpace(row.invitedBy)
       && m.createdAt == Or(row.createdAt, created)
  }

  predicate OwnerOnly(row: DfeMember, users: set<string>, owner: string) {
    TrimSpace(row.userId) == owner && MapRole(row.role) == Some(Owner) && row.permissions == [] && owner in users
  }

  /** The planned members match the rows one to one, in row order, apart from the owner's own row:
      split says at which row, if any. */
  ghost predicate Accounts(rows: seq<DfeMember>, users: set<string>, created: int, owner: string,
                           members: seq<Membership>, split: nat)
  {
    if split < |rows| then
      && OwnerOnly(rows[split], users, owner)
      && |members| == |rows| - 1
      && (forall i :: 0 <= i < split ==> PlannedFrom(members[i], rows[i], users, created))
      && (forall i :: split <= i < |members| ==> PlannedFrom(members[i], rows[i + 1], users, created))
    else
      |members| == |rows| && forall i :: 0 <= i < |members| ==> PlannedFrom(members[i], rows[i], users, created)
  }

  lemma ClearRow(m: DfeMember, users: set<string>, created: int, owner: string)
    requires RowIsClear(m, users, created, owner) && owner != ""
    ensures var row := ReadRow(m, users, created);
            && (row.OwnerRow? ==> OwnerOnly(m, users, owner))
            && (row.MemberRow? ==> PlannedFrom(row.member, m, users, created))
            && !row.Question?
  {
    hide TrimSpace, MapRole;
  }

  lemma OneMoreMember(rows: seq<DfeMember>, users: set<string>, created: int, owner: string, members: seq<Membership>,
                      split: nat, row: DfeMember, m: Membership)
    requires Accounts(rows, users, created, owner, members, split) && split <= |rows|
    requires PlannedFrom(m, row, users, created)
    ensures Accounts(rows + [row], users, created, owner, members + [m], if split == |rows| then split + 1 else split)
  {
    hide PlannedFrom, OwnerOnly;
    var more := rows + [row];
    if split < |rows| {
      forall i | split <= i < |members + [m]| ensures PlannedFrom((members + [m])[i], more[i + 1], users, created) {
        if i < |members| {
          assert more[i + 1] == rows[i + 1];
        }
      }
    }
  }

  lemma TheOwnersRow(rows: seq<DfeMember>, users: set<string>, created: int, owner: string, members: seq<Membership>,
                     row: DfeMember)
    requires Accounts(rows, users, created, owner, members, |rows|) && OwnerOnly(row, users, owner)
    ensures Accounts(rows + [row], users, created, owner, members, |rows|)
  {
    hide PlannedFrom, OwnerOnly;
  }

  lemma {:induction false} RowsAccounted(rows: seq<DfeMember>, users: set<string>, created: int, owner: string)
    returns (split: nat)
    requires owner != "" && forall i :: 0 <= i < |rows| ==> RowIsClear(rows[i], users, created, owner)
    requires |OwnersOf(rows, users, created)| <= 1
    ensures Accounts(rows, users, created, owner, MembersOf(rows, users, created), split)
    ensures split < |rows| <==> |OwnersOf(rows, users, created)| == 1
    ensures split <= |rows|
  {
    hide ReadRow, RowIsClear, OwnerOnly, PlannedFrom;
    split := 0;
    if rows != [] {
      var front, last := rows[..|rows| - 1], rows[|rows| - 1];
      split := RowsAccounted(front, users, created, owner);
      ClearRow(last, users, created, owner);
      assert rows == front + [last];
      var members, row := MembersOf(front, users, created), ReadRow(last, users, created);
      hide Accounts;
      if row.MemberRow? {
        OneMoreMember(front, users, created, owner, members, split, last, row.member);
        split := if split == |front| then split + 1 else split;
      } else {
        TheOwnersRow(front, users, created, owner, members, last);
        assert members + [] == members;
      }
    }
  }

  /** A created plan loses and invents nothing. Every input row is a planned member, with the mapped
      role, an existing user and no extra permission, except at most one row, which is the owner's and
      names owner_user_id. The plan holds exactly these members, ordered by user id. */
  lemma CreatedPlanAccountsForEveryRow(org: DfeOrg, rows: seq<DfeMember>, users: set<string>, created: int,
                                       planned: seq<Membership>)
    requires Clear(org, rows, users, created)
    requires planned == SortedMembers(MembersOf(rows, users, created))
    ensures exists split: nat, members: seq<Membership> ::
              && Accounts(rows, users, created, TrimSpace(org.ownerUserId), members, split)
              && multiset(planned) == multiset(members)
    ensures Sorting.Sorted((m: Membership) => m.userId, planned)
    ensures forall m :: m in planned ==> m.role != Owner && m.userId in users
  {
    hide TrimSpace, RowIsClear;
    var members := MembersOf(rows, users, created);
    Sorting.SortBySorts((m: Membership) => m.userId, members);
    var split := RowsAccounted(rows, users, created, TrimSpace(org.ownerUserId));
    assert Accounts(rows, users, created, TrimSpace(org.ownerUserId), members, split);
    forall m | m in planned ensures m.role != Owner && m.userId in users {
      Sorting.SameElements(planned, members, m);
      var i :| 0 <= i < |members| && members[i] == m;
      assert PlannedFrom(members[i], rows[if split <= i then i + 1 else i], users, created);
    }
  }

  // ---------------------------------------------------------------- the company half

  datatype CompanyDecision = CompanyDecision(sourceRef: string, taxId: string, kind: Option<TaxId.Kind>,
                                             legalName: string, createdAt: int,
                                             create: bool, review: seq<Review>, actors: seq<Actor>)

  /** The document a source key carries, or the empty text. */
  function LegacyDocument(pk: string): string {
    if HasPrefix(pk, "CNPJ_") then pk[5..]
    else if HasPrefix(pk, "CPF_") then pk[4..]
    else ""
  }

  lemma DocumentInKey(document: string)
    ensures LegacyDocument("CNPJ_" + document) == document && LegacyDocument("CPF_" + document) == document
  {
    assert "CNPJ_" + document == "CNPJ_" + document && ("CNPJ_" + document)[..5] == "CNPJ_";
    assert ("CPF_" + document)[..4] == "CPF_" && ("CPF_" + document)[1] == 'P' && "CNPJ_"[1] == 'N';
  }

  lemma OtherKeysHaveNone(pk: string)
    requires forall document :: pk != "CNPJ_" + document && pk != "CPF_" + document
    ensures LegacyDocument(pk) == ""
  {
    if HasPrefix(pk, "CNPJ_") {
      assert pk == "CNPJ_" + pk[5..];
    }
    if HasPrefix(pk, "CPF_") {
      assert pk == "CPF_" + pk[4..];
    }
  }

  function ActorsFrom(rows: seq<DfeMember>, created: int): seq<Actor> {
    if rows == [] then []
    else
      var last := rows[|rows| - 1];
      var user := TrimSpace(last.userId);
      ActorsFrom(rows[..|rows| - 1], created)
      + (if user == "" then []
         else [Actor(user, TrimSpace(last.name), TrimSpace(last.invitedBy), Or(last.createdAt, created))])
  }

  /** This row makes this actor. */
  predicate ActorOf(row: DfeMember, created: int, a: Actor) {
    && a.userId == TrimSpace(row.userId) && a.userId != "" && a.name == TrimSpace(row.name)
    && a.grantedBy == TrimSpace(row.invitedBy)
    && a.createdAt == if row.createdAt.Some? then row.createdAt.value else created
  }

  /** Every row with a user makes an actor, and every actor comes from a row. */
  lemma {:induction false} ActorsMatchRows(rows: seq<DfeMember>, created: int)
    ensures forall a :: a in ActorsFrom(rows, created) ==> exists row :: row in rows && ActorOf(row, created, a)
    ensures forall row :: row in rows && TrimSpace(row.userId) != "" ==>
              exists a :: a in ActorsFrom(rows, created) && ActorOf(row, created, a)
    ensures |ActorsFrom(rows, created)| <= |rows|
  {
    hide TrimSpace, ActorOf, ActorsFrom;
    if rows == [] {
      NoActors(created);
    } else {
      var front, last := rows[..|rows| - 1], rows[|rows| - 1];
      ActorsMatchRows(front, created);
      LastActor(rows, created);
      assert rows == front + [last];
      assert forall row :: row in rows <==> row in front || row == last;
      if TrimSpace(last.userId) != "" {
        var made :| ActorsFrom(rows, created) == ActorsFrom(front, created) + [made] && ActorOf(last, created, made);
        assert forall a :: a in ActorsFrom(rows, created) <==> a in ActorsFrom(front, created) || a == made;
      }
    }
  }

  lemma NoActors(created: int)
    ensures ActorsFrom([], created) == []
  {}

  lemma LastActor(rows: seq<DfeMember>, created: int)
    requires rows != []
    ensures var front, last := ActorsFrom(rows[..|rows| - 1], created), rows[|rows| - 1];
            if TrimSpace(last.userId) == "" then
              ActorsFrom(rows, created) == front && forall a :: !ActorOf(last, created, a)
            else exists made :: ActorsFrom(rows, created) == front + [made] && ActorOf(last, created, made)
  {
    hide TrimSpace;
    var last := rows[|rows| - 1];
    var made := Actor(TrimSpace(last.userId), TrimSpace(last.name), TrimSpace(last.invitedBy),
                      Or(last.createdAt, created));
    assert TrimSpace(last.userId) != "" ==> ActorOf(last, created, made);
  }

  predicate Acts(actors: seq<Actor>, user: string) {
    exists i :: 0 <= i < |actors| && actors[i].userId == user
  }

  predicate HasRow(rows: seq<DfeMember>, user: string) {
    exists i :: 0 <= i < |rows| && TrimSpace(rows[i].userId) == user
  }

  lemma RowAppend(rows: seq<DfeMember>, user: string)
    requires rows != []
    ensures HasRow(rows, user) <==> HasRow(rows[..|rows| - 1], user) || TrimSpace(rows[|rows| - 1].userId) == user
  {
    hide TrimSpace;
    var front := rows[..|rows| - 1];
    if HasRow(front, user) {
      var i :| 0 <= i < |front| && TrimSpace(front[i].userId) == user;
      assert rows[i] == front[i];
    }
    if HasRow(rows, user) && TrimSpace(rows[|rows| - 1].userId) != user {
      var i :| 0 <= i < |rows| && TrimSpace(rows[i].userId) == user;
      assert front[i] == rows[i];
    }
  }

  lemma ActsAppend(actors: seq<Actor>, a: Actor, user: string)
    ensures Acts(actors + [a], user) <==> Acts(actors, user) || a.userId == user
  {
    if Acts(actors, user) {
      var i :| 0 <= i < |actors| && actors[i].userId == user;
      assert (actors + [a])[i] == actors[i];
    }
    assert (actors + [a])[|actors|] == a;
  }

  lemma {:induction false} ActorsFromRows(rows: seq<DfeMember>, created: int, user: string)
    requires user != ""
    ensures Acts(ActorsFrom(rows, created), user) <==> HasRow(rows, user)
  {
    if rows != [] {
      var front, last := rows[..|rows| - 1], rows[|rows| - 1];
      ActorsFromRows(front, created, user);
      var name := TrimSpace(last.userId);
      if name != "" {
        ActsAppend(ActorsFrom(front, created),
                   Actor(name, TrimSpace(last.name), TrimSpace(last.invitedBy), Or(last.createdAt, created)), user);
      }
      RowAppend(rows, user);
      hide TrimSpace, Acts, HasRow;
      assert name == "" ==> ActorsFrom(rows, created) == ActorsFrom(front, created);
    }
  }

  method HasActor(actors: seq<Actor>, user: string) returns (found: bool)
    ensures found <==> Acts(actors, user)
  {
    for i := 0 to |actors|
      invariant forall k :: 0 <= k < i ==> actors[k].userId != user
    {
      if actors[i].userId == user {
        return true;
      }
    }
    return false;
  }

  function PlannedActors(rows: seq<DfeMember>, d: Decision): seq<Actor> {
    var actors := ActorsFrom(rows, d.createdAt);
    if d.owner != "" && !Acts(actors, d.owner) then actors + [Actor(d.owner, d.ownerName, d.owner, d.createdAt)]
      else actors
  }

  /** The company is created exactly when the key is a valid document, the name is not empty and
      somebody may act; those who may act are exactly the people with a row and the owner. */
  method PlanCompany(org: DfeOrg, rows: seq<DfeMember>, d: Decision) returns (c: CompanyDecision)
    ensures c.sourceRef == org.pk && c.legalName == TrimSpace(org.name) && c.createdAt == d.createdAt
    ensures c.create <==> c.review == []
    ensures c.create <==> TaxId.Normalize(LegacyDocument(org.pk)).Some? && c.legalName != "" && c.actors != []
    ensures c.create ==> c.kind.Some? && TaxId.Normalize(LegacyDocument(org.pk)) == Some((c.taxId, c.kind.value))
    ensures c.actors == PlannedActors(rows, d)
    ensures forall user :: user != "" ==> (Acts(c.actors, user) <==> HasRow(rows, user) || user == d.owner)
    ensures forall a :: a in c.actors ==>
              || (exists row :: row in rows && ActorOf(row, d.createdAt, a))
              || (d.owner != "" && !HasRow(rows, d.owner) && a == Actor(d.owner, d.ownerName, d.owner, d.createdAt))
    ensures forall row :: row in rows && TrimSpace(row.userId) != "" ==>
              exists a :: a in c.actors && ActorOf(row, d.createdAt, a)
    ensures c.review ==
            (if LegacyDocument(org.pk) == "" then [NoDocument(org.pk)]
             else if TaxId.Normalize(LegacyDocument(org.pk)).None? then [InvalidDocument(LegacyDocument(org.pk))]
             else [])
            + (if c.legalName == "" then [NoLegalName] else []) + (if c.actors == [] then [NobodyActs] else [])
  {
    hide TrimSpace, TaxId.Normalize, ActorsFrom, Acts, HasRow, ActorOf, LegacyDocument;
    ActorsMatchRows(rows, d.createdAt);
    if d.owner != "" {
      ActorsFromRows(rows, d.createdAt, d.owner);
    }
    var review: seq<Review> := [];
    var taxId, kind := "", None;
    var raw := LegacyDocument(org.pk);
    NoDocumentIsInvalid();
    if raw == "" {
      review := review + [NoDocument(org.pk)];
    } else {
      var normalized := TaxId.Normalize(raw);
      if normalized.Some? {
        taxId, kind := normalized.value.0, Some(normalized.value.1);
      } else {
        review := review + [InvalidDocument(raw)];
      }
    }
    var legalName := TrimSpace(org.name);
    if legalName == "" {
      review := review + [NoLegalName];
    }
    var actors := CollectActors(rows, d.createdAt);
    var found := HasActor(actors, d.owner);
    if d.owner != "" && !found {
      actors := actors + [Actor(d.owner, d.ownerName, d.owner, d.createdAt)];
    }
    if |actors| == 0 {
      review := review + [NobodyActs];
    }
    forall user | user != "" ensures Acts(actors, user) <==> HasRow(rows, user) || user == d.owner {
      ActorsFromRows(rows, d.createdAt, user);
      ActsAppend(ActorsFrom(rows, d.createdAt), Actor(d.owner, d.ownerName, d.owner, d.createdAt), user);
    }
    c := CompanyDecision(org.pk, taxId, kind, legalName, d.createdAt, |review| == 0, review, actors);
  }

  lemma NoDocumentIsInvalid()
    ensures TaxId.Normalize("").None?
  {}

  method CollectActors(rows: seq<DfeMember>, created: int) returns (actors: seq<Actor>)
    ensures actors == ActorsFrom(rows, created)
  {
    hide TrimSpace;
    actors := [];
    for i := 0 to |rows|
      invariant actors == ActorsFrom(rows[..i], created)
    {
      assert rows[..i + 1][..i] == rows[..i];
      var user := TrimSpace(rows[i].userId);
      if user == "" {
        continue;
      }
      actors := actors + [Actor(user, TrimSpace(rows[i].name), TrimSpace(rows[i].invitedBy),
                                Or(rows[i].createdAt, created))];
    }
    assert rows[..|rows|] == rows;
  }
}
