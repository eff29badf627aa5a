/** The role-based menu of the main page: the only authorisation the
    application performs is which actions it offers. */
module Menu {

  /** The entries of the sidebar menu. */
  datatype Action =
    | Add | ViewAll | SearchById | SearchByBlock | SearchByRoom
    | Update | Delete | Download
  {
    /** The text the menu shows for the entry. */
    function Label(): string {
      match this
      case Add => "Add"
      case ViewAll => "View All"
      case SearchById => "Search by ID"
      case SearchByBlock => "Search by Hostel_Block"
      case SearchByRoom => "Search by Room_No"
      case Update => "Update"
      case Delete => "Delete"
      case Download => "Download"
    }
  }

  /** The actions offered to the "admin" role, in menu order. */
  const AdminActions: seq<Action> :=
    [Add, ViewAll, SearchById, SearchByBlock, SearchByRoom, Update, Delete, Download]

  /** The actions offered to every other role, in menu order. */
  const ReadOnlyActions: seq<Action> :=
    [ViewAll, SearchById, SearchByBlock, SearchByRoom, Download]

  /** The actions that change stored records. */
  const Mutating: set<Action> := {Add, Update, Delete}

  /** The menu shown for a role: the admin list for "admin", the read-only
      list for any other role string. */
  function MenuFor(role: string): (menu: seq<Action>)
    ensures |menu| == if role == "admin" then 8 else 5
    ensures forall a :: a in menu ==> a in AdminActions
    ensures forall a :: a in Mutating ==> (a in menu <==> role == "admin")
  {
    if role == "admin" then AdminActions else ReadOnlyActions
  }

  /** `r` is `s` with some elements dropped and the rest in their order. */
  predicate SubsequenceOf(r: seq<Action>, s: seq<Action>)
    decreases |s|
  {
    r == [] || (s != [] && ((r[0] == s[0] && SubsequenceOf(r[1..], s[1..])) || SubsequenceOf(r, s[1..])))
  }

  /** The elements of `s` that are not in `excluded`, in their order in `s`. */
  function Without(s: seq<Action>, excluded: set<Action>): (r: seq<Action>)
    ensures |r| <= |s|
  {
    if s == [] then []
    else if s[0] in excluded then Without(s[1..], excluded)
    else [s[0]] + Without(s[1..], excluded)
  }

  /** `Without` keeps exactly the elements of `s` outside `excluded`. */
  lemma {:induction false} WithoutMembers(s: seq<Action>, excluded: set<Action>, a: Action)
    ensures a in Without(s, excluded) <==> a in s && a !in excluded
  {
    if s != [] {
      WithoutMembers(s[1..], excluded, a);
      assert s == [s[0]] + s[1..];
    }
  }

  /** `Without` keeps the order of what it keeps. */
  lemma {:induction false} WithoutKeepsOrder(s: seq<Action>, excluded: set<Action>)
    ensures SubsequenceOf(Without(s, excluded), s)
    decreases |s|
  {
    if s != [] {
      WithoutKeepsOrder(s[1..], excluded);
      var w := Without(s[1..], excluded);
      if s[0] !in excluded {
        assert ([s[0]] + w)[1..] == w;
      }
    }
  }

  /** Every non-admin menu is the admin menu with the mutating actions
      removed: it holds exactly the non-mutating admin actions, in the
      order the admin menu lists them. */
  lemma ReadOnlyIsAdminWithoutMutating(role: string)
    requires role != "admin"
    ensures MenuFor(role) == Without(MenuFor("admin"), Mutating)
    ensures SubsequenceOf(MenuFor(role), MenuFor("admin"))
    ensures forall a :: a in MenuFor(role) <==> a in MenuFor("admin") && a !in Mutating
  {
    ReadOnlyIsFiltered();
    WithoutKeepsOrder(AdminActions, Mutating);
    forall a {
      WithoutMembers(AdminActions, Mutating, a);
    }
  }

  /** The read-only list is the admin list filtered; proved by peeling one
      action at a time. */
  lemma ReadOnlyIsFiltered()
    ensures Without(AdminActions, Mutating) == ReadOnlyActions
  {
    var e := Mutating;
    // peel the admin list from the back, one action at a time
    var t6: seq<Action> := [Delete, Download];
    var t5 := [Update] + t6;
    var t4 := [SearchByRoom] + t5;
    var t3 := [SearchByBlock] + t4;
    var t2 := [SearchById] + t3;
    var t1 := [ViewAll] + t2;
    WithoutCons(Download, [], e);
    WithoutCons(Delete, [Download], e);
    WithoutCons(Update, t6, e);
    WithoutCons(SearchByRoom, t5, e);
    WithoutCons(SearchByBlock, t4, e);
    WithoutCons(SearchById, t3, e);
    WithoutCons(ViewAll, t2, e);
    WithoutCons(Add, t1, e);
    assert AdminActions == [Add] + t1;
  }

  /** One step of `Without` on a list with a known first element. */
  lemma WithoutCons(x: Action, t: seq<Action>, excluded: set<Action>)
    ensures Without([x] + t, excluded) ==
              if x in excluded then Without(t, excluded) else [x] + Without(t, excluded)
  {
    assert ([x] + t)[1..] == t;
  }

  /** Both menus list each action once, and no two actions share a label. */
  lemma MenuEntriesDistinct(role: string)
    ensures forall i, j :: 0 <= i < j < |MenuFor(role)| ==> MenuFor(role)[i] != MenuFor(role)[j]
    ensures forall x: Action, y: Action :: x.Label() == y.Label() ==> x == y
  {
  }
}
