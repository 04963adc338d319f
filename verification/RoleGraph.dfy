/**
 * Role memberships as a graph. PostgreSQL refuses a membership that closes a circle; whether a
 * list of GRANT statements gets through does not depend on its order.
 */
module RoleGraph {

  /** (role, member): the member may use what the role holds. */
  type Memberships = set<(string, string)>

  function WithMembers(ms: Memberships, roles: set<string>): set<string> {
    roles + set e | e in ms && e.0 in roles :: e.1
  }

  function Ends(ms: Memberships): set<string> {
    set e | e in ms :: e.1
  }

  predicate Closed(ms: Memberships, roles: set<string>) {
    forall e | e in ms && e.0 in roles :: e.1 in roles
  }

  /** The roles and everything below them. */
  function Closure(ms: Memberships, roles: set<string>): (all: set<string>)
    ensures roles <= all && Closed(ms, all)
    decreases Ends(ms) - roles
  {
    var next := WithMembers(ms, roles);
    if next == roles then
      assert Closed(ms, roles) by {
        forall e | e in ms && e.0 in roles ensures e.1 in roles {
          assert e.1 in next;
        }
      }
      roles
    else
      NewEnd(ms, roles);
      Closure(ms, next)
  }

  lemma NewEnd(ms: Memberships, roles: set<string>)
    requires WithMembers(ms, roles) != roles
    ensures Ends(ms) - WithMembers(ms, roles) < Ends(ms) - roles
  {
    var e :| e in ms && e.0 in roles && e.1 !in roles;
    assert e.1 in Ends(ms) - roles && e.1 in WithMembers(ms, roles);
  }

  /** The members of a role, direct and indirect, and the role itself. */
  function Down(ms: Memberships, role: string): set<string> {
    Closure(ms, {role})
  }

  lemma {:induction false} ClosureIsLeast(ms: Memberships, roles: set<string>, all: set<string>)
    requires roles <= all && Closed(ms, all)
    ensures Closure(ms, roles) <= all
    decreases Ends(ms) - roles
  {
    var next := WithMembers(ms, roles);
    if next != roles {
      NewEnd(ms, roles);
      assert next <= all;
      ClosureIsLeast(ms, next, all);
    }
  }

  lemma DownIsLeast(ms: Memberships, role: string, all: set<string>)
    requires role in all && Closed(ms, all)
    ensures Down(ms, role) <= all
  {
    ClosureIsLeast(ms, {role}, all);
  }

  /** More memberships, more members. */
  lemma DownGrows(ms: Memberships, more: Memberships, role: string)
    requires ms <= more
    ensures Down(ms, role) <= Down(more, role)
  {
    DownIsLeast(ms, role, Down(more, role));
  }

  lemma DownIsTransitive(ms: Memberships, role: string, member: string)
    requires member in Down(ms, role)
    ensures Down(ms, member) <= Down(ms, role)
  {
    DownIsLeast(ms, member, Down(ms, role));
  }

  /** No role is below one of its own members. */
  predicate Loopless(ms: Memberships) {
    forall e | e in ms :: e.0 !in Down(ms, e.1)
  }

  lemma LooplessShrinks(ms: Memberships, more: Memberships)
    requires ms <= more && Loopless(more)
    ensures Loopless(ms)
  {
    forall e | e in ms ensures e.0 !in Down(ms, e.1) {
      DownGrows(ms, more, e.1);
    }
  }

  /** PostgreSQL's test before it grants `role` to `member` is exactly that no circle appears. */
  lemma GrantClosesNoLoop(ms: Memberships, role: string, member: string)
    requires Loopless(ms)
    ensures role !in Down(ms, member) <==> Loopless(ms + {(role, member)})
  {
    var more := ms + {(role, member)};
    if role in Down(ms, member) {
      DownGrows(ms, more, member);
      assert (role, member) in more;
    } else {
      forall e | e in more ensures e.0 !in Down(more, e.1) {
        StaysAbove(ms, role, member, e);
      }
    }
  }

  lemma StaysAbove(ms: Memberships, role: string, member: string, e: (string, string))
    requires Loopless(ms) && role !in Down(ms, member) && e in ms + {(role, member)}
    ensures e.0 !in Down(ms + {(role, member)}, e.1)
  {
    var more, below := ms + {(role, member)}, Down(ms, e.1);
    if role in below {
      DownIsLeast(more, e.1, below + Down(ms, member));
      if e.0 in Down(ms, member) {
        assert e in ms && e.1 in Down(ms, member);
        DownIsTransitive(ms, member, e.1);
        assert false;
      }
    } else {
      DownIsLeast(more, e.1, below);
    }
  }
}
