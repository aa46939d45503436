/** The records the Notion proxy returns and the three-level tree the
    visualisation is drawn from: the root "Organização", one node per circle,
    and under each circle the roles that name it. */
module Hierarchy {
  import opened Wrappers
  import JsNumber

  /** A circle identifier as it arrives in the JSON: a number or a string. */
  datatype CircleId = NumberId(n: int) | TextId(s: string)

  /** A reference to another Notion page (a project or an assigned person). */
  datatype PageRef = PageRef(id: string, title: Option<string>)

  /** One record of the roles database. */
  datatype RoleRecord = RoleRecord(
    roleId: string,
    roleName: string,
    circleId: CircleId,
    purpose: Option<string>,
    responsibilities: Option<string>,
    projects: Option<seq<PageRef>>,
    people: Option<seq<PageRef>>,
    area: Option<string>,
    pageId: string)

  /** One record of the circles database. */
  datatype CircleRecord = CircleRecord(
    circleId: CircleId,
    circleName: string,
    purpose: Option<string>,
    responsibilities: Option<string>,
    projects: Option<string>)

  /** A leaf of the tree; `value` is the weight the layout sums. */
  datatype RoleNode = RoleNode(
    name: string,
    id: string,
    purpose: Option<string>,
    responsibilities: Option<string>,
    people: Option<seq<PageRef>>,
    pageId: string,
    value: int)

  datatype CircleNode = CircleNode(
    name: string,
    id: CircleId,
    purpose: Option<string>,
    responsibilities: Option<string>,
    children: seq<RoleNode>)

  datatype Tree = Tree(name: string, children: seq<CircleNode>)

  const RootName: string := "Organização"

  /** The number an identifier stands for: a number as it is, a string through
      `parseInt`; `None` is `NaN`. */
  function Normalize(id: CircleId): Option<int> {
    match id
    case NumberId(n) => Some(n)
    case TextId(s) => JsNumber.ParseInt(s)
  }

  /** `roleCircleID === circleID` on the normalised identifiers: `NaN` is
      equal to nothing, itself included. */
  predicate SameCircle(a: CircleId, b: CircleId) {
    Normalize(a).Some? && Normalize(b).Some? && Normalize(a).value == Normalize(b).value
  }

  /** An identifier that does not parse matches no identifier at all. */
  lemma {:induction false} NaNMatchesNothing(a: CircleId, b: CircleId)
    requires Normalize(a) == None
    ensures !SameCircle(a, b) && !SameCircle(b, a)
  {
  }

  /** A numeric identifier and its decimal text are the same circle. */
  lemma {:induction false} NumberMatchesItsText(n: int)
    ensures SameCircle(NumberId(n), TextId(JsNumber.DecimalString(n)))
  {
    JsNumber.ParseIntDecimal(n, "");
    assert JsNumber.DecimalString(n) + "" == JsNumber.DecimalString(n);
  }

  /** The role node the map step builds from a record. */
  function RoleNodeOf(role: RoleRecord): RoleNode {
    RoleNode(role.roleName, role.roleId, role.purpose, role.responsibilities,
             role.people, role.pageId, 1)
  }

  /** The filter-then-map over all roles for one circle. */
  function RolesUnder(circle: CircleRecord, roles: seq<RoleRecord>): seq<RoleNode>
    decreases |roles|
  {
    if |roles| == 0 then []
    else
      var first := if SameCircle(roles[0].circleId, circle.circleId) then [RoleNodeOf(roles[0])] else [];
      first + RolesUnder(circle, roles[1..])
  }

  function CircleNodeOf(circle: CircleRecord, roles: seq<RoleRecord>): CircleNode {
    CircleNode(circle.circleName, circle.circleId, circle.purpose, circle.responsibilities,
               RolesUnder(circle, roles))
  }

  /** The hierarchy literal: a root named "Organização" with one child per
      circle record, in input order, each carrying that record's fields and
      the roles placed under it. */
  function BuildTree(circles: seq<CircleRecord>, roles: seq<RoleRecord>): (t: Tree)
    ensures t.name == RootName
    ensures |t.children| == |circles|
    ensures forall i :: 0 <= i < |circles| ==>
      && t.children[i].name == circles[i].circleName
      && t.children[i].id == circles[i].circleId
      && t.children[i].purpose == circles[i].purpose
      && t.children[i].responsibilities == circles[i].responsibilities
      && t.children[i].children == RolesUnder(circles[i], roles)
  {
    Tree(RootName, seq(|circles|, i requires 0 <= i < |circles| => CircleNodeOf(circles[i], roles)))
  }

  /** Placement, both directions: a node is under a circle exactly when it is
      built from some role whose normalised circle identifier equals the
      circle's. */
  lemma {:induction false} RolesUnderMembers(circle: CircleRecord, roles: seq<RoleRecord>, n: RoleNode)
    ensures n in RolesUnder(circle, roles) <==>
      exists j :: 0 <= j < |roles| && SameCircle(roles[j].circleId, circle.circleId) && RoleNodeOf(roles[j]) == n
    decreases |roles|
  {
    if |roles| > 0 {
      RolesUnderMembers(circle, roles[1..], n);
      if exists j :: 0 <= j < |roles| && SameCircle(roles[j].circleId, circle.circleId) && RoleNodeOf(roles[j]) == n {
        var j :| 0 <= j < |roles| && SameCircle(roles[j].circleId, circle.circleId) && RoleNodeOf(roles[j]) == n;
        if j > 0 {
          assert roles[1..][j - 1] == roles[j];
        }
      }
      if exists j :: 0 <= j < |roles[1..]| && SameCircle(roles[1..][j].circleId, circle.circleId) && RoleNodeOf(roles[1..][j]) == n {
        var j :| 0 <= j < |roles[1..]| && SameCircle(roles[1..][j].circleId, circle.circleId) && RoleNodeOf(roles[1..][j]) == n;
        assert roles[j + 1] == roles[1..][j];
      }
    }
  }

  /** Order is kept: the roles placed from `a + b` are those from `a`
      followed by those from `b`. */
  lemma {:induction false} RolesUnderAppend(circle: CircleRecord, a: seq<RoleRecord>, b: seq<RoleRecord>)
    ensures RolesUnder(circle, a + b) == RolesUnder(circle, a) + RolesUnder(circle, b)
    decreases |a|
  {
    if |a| == 0 {
      assert a + b == b;
    } else {
      assert (a + b)[0] == a[0];
      assert (a + b)[1..] == a[1..] + b;
      RolesUnderAppend(circle, a[1..], b);
    }
  }

  /** One record on its own is placed iff its identifier matches. */
  lemma {:induction false} RolesUnderSingle(circle: CircleRecord, role: RoleRecord)
    ensures RolesUnder(circle, [role]) ==
      if SameCircle(role.circleId, circle.circleId) then [RoleNodeOf(role)] else []
  {
    assert [role][1..] == [];
  }

  /** Removing a role that does not match `circle` leaves its children as they were. */
  lemma {:induction false} UnmatchedRoleNotUnder(circle: CircleRecord, roles: seq<RoleRecord>, j: nat)
    requires j < |roles|
    requires !SameCircle(roles[j].circleId, circle.circleId)
    ensures RolesUnder(circle, roles) == RolesUnder(circle, roles[..j] + roles[j + 1..])
  {
    assert roles == (roles[..j] + [roles[j]]) + roles[j + 1..];
    RolesUnderAppend(circle, roles[..j] + [roles[j]], roles[j + 1..]);
    RolesUnderAppend(circle, roles[..j], [roles[j]]);
    RolesUnderAppend(circle, roles[..j], roles[j + 1..]);
    RolesUnderSingle(circle, roles[j]);
  }

  /** A role whose identifier matches no circle (or does not parse) appears
      nowhere: leaving it out of the input gives the same tree. */
  lemma {:induction false} OrphanDropped(circles: seq<CircleRecord>, roles: seq<RoleRecord>, j: nat)
    requires j < |roles|
    requires forall i :: 0 <= i < |circles| ==> !SameCircle(roles[j].circleId, circles[i].circleId)
    ensures BuildTree(circles, roles) == BuildTree(circles, roles[..j] + roles[j + 1..])
  {
    var rest := roles[..j] + roles[j + 1..];
    var t, t' := BuildTree(circles, roles), BuildTree(circles, rest);
    forall i | 0 <= i < |circles| ensures t.children[i] == t'.children[i] {
      UnmatchedRoleNotUnder(circles[i], roles, j);
    }
    assert t.children == t'.children;
  }

  /** A role is repeated under every circle whose normalised identifier equals
      its own. */
  lemma {:induction false} RoleUnderEveryMatchingCircle(circles: seq<CircleRecord>, roles: seq<RoleRecord>, j: nat, i: nat)
    requires j < |roles| && i < |circles|
    requires SameCircle(roles[j].circleId, circles[i].circleId)
    ensures RoleNodeOf(roles[j]) in BuildTree(circles, roles).children[i].children
  {
    RolesUnderMembers(circles[i], roles, RoleNodeOf(roles[j]));
  }

  /** Every role node has weight 1, copies name, id, purpose, responsibilities,
      assigned people and page id from a record, and sits under a circle that
      record names. */
  lemma {:induction false} RoleNodesCopyRecords(circles: seq<CircleRecord>, roles: seq<RoleRecord>, i: nat, n: RoleNode)
    requires i < |circles|
    requires n in BuildTree(circles, roles).children[i].children
    ensures n.value == 1
    ensures exists j :: 0 <= j < |roles| && SameCircle(roles[j].circleId, circles[i].circleId)
                        && n.name == roles[j].roleName && n.id == roles[j].roleId
                        && n.purpose == roles[j].purpose && n.responsibilities == roles[j].responsibilities
                        && n.people == roles[j].people && n.pageId == roles[j].pageId
  {
    RolesUnderMembers(circles[i], roles, n);
  }

  /** The circle "Core" with identifier "1", a role "Lead" in circle "1" and
      a role "Orphan" in circle "9": Core holds Lead alone. */
  lemma {:induction false} ExampleCoreLeadOrphan()
    ensures
      var core := CircleRecord(TextId("1"), "Core", None, None, None);
      var lead := RoleRecord("r1", "Lead", TextId("1"), None, None, None, None, None, "");
      var orphan := RoleRecord("r2", "Orphan", TextId("9"), None, None, None, None, None, "");
      var t := BuildTree([core], [lead, orphan]);
      |t.children| == 1 && t.children[0].name == "Core" && t.children[0].children == [RoleNodeOf(lead)]
  {
    var core := CircleRecord(TextId("1"), "Core", None, None, None);
    var lead := RoleRecord("r1", "Lead", TextId("1"), None, None, None, None, None, "");
    var orphan := RoleRecord("r2", "Orphan", TextId("9"), None, None, None, None, None, "");
    ParsesTo("1", 1);
    ParsesTo("9", 9);
    assert [lead, orphan] == [lead] + [orphan];
    RolesUnderAppend(core, [lead], [orphan]);
    RolesUnderSingle(core, lead);
    RolesUnderSingle(core, orphan);
  }

  lemma {:induction false} ParsesTo(s: string, n: int)
    requires s == JsNumber.DecimalString(n)
    ensures Normalize(TextId(s)) == Some(n)
  {
    JsNumber.ParseIntDecimal(n, "");
    assert s + "" == s;
  }
}
