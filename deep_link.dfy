/** Clicking a role opens its Notion page: the page id with its dashes
    removed, after the Notion address. */
module DeepLink {
  import opened Wrappers
  import opened JsString
  import opened Hierarchy

  const NotionBase: string := "https://www.notion.so/"

  /** The address `window.open` receives when a role node is clicked;
      `None` when its page id is empty and nothing is opened. */
  function RoleLink(role: RoleNode): Option<string> {
    if role.pageId == "" then None else Some(NotionBase + RemoveAll(role.pageId, '-'))
  }

  /** A page is opened exactly when the page id is non-empty; the address is
      the Notion base followed by the page id's other characters, in order,
      and holds no `-` after the base. */
  lemma {:induction false} RoleLinkShape(role: RoleNode)
    ensures RoleLink(role).Some? <==> role.pageId != ""
    ensures RoleLink(role).Some? ==>
      var url := RoleLink(role).value;
      && |url| >= |NotionBase| && url[..|NotionBase|] == NotionBase
      && url[|NotionBase|..] == RemoveAll(role.pageId, '-')
      && '-' !in url[|NotionBase|..]
      && |url| == |NotionBase| + |role.pageId| - Count(role.pageId, '-')
  {
    RemoveAllLength(role.pageId, '-');
    if role.pageId != "" {
      var url := RoleLink(role).value;
      assert url[|NotionBase|..] == RemoveAll(role.pageId, '-');
    }
  }

  /** An id already without dashes is used as it is, and each dash-separated
      group of an id lands in the address in its place. */
  lemma {:induction false} RoleLinkKeepsGroups(role: RoleNode, a: string, b: string)
    requires role.pageId == a + "-" + b
    requires '-' !in a
    ensures RoleLink(role) == Some(NotionBase + a + RemoveAll(b, '-'))
  {
    RemoveAllAppend(a + "-", b, '-');
    RemoveAllAppend(a, "-", '-');
    RemoveAllAbsent(a, '-');
    assert RemoveAll("-", '-') == "" by {
      assert "-"[1..] == "";
    }
    assert RemoveAll(a + "-", '-') == a;
    assert RemoveAll(role.pageId, '-') == a + RemoveAll(b, '-');
    assert NotionBase + (a + RemoveAll(b, '-')) == NotionBase + a + RemoveAll(b, '-');
  }
}
