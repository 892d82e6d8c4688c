/** The k greatest members of a Redis sorted set, ordered by score and then by member. */
module TopK {
  import opened Sets

  /** A sorted-set member: a session id with its score.  Ids are UUIDs, so their order is numeric. */
  datatype Member = Member(score: int, id: nat)

  predicate Below(a: Member, b: Member) {
    a.score < b.score || (a.score == b.score && a.id < b.id)
  }

  function Above(s: set<Member>, m: Member): set<Member> {
    set x | x in s && Below(m, x)
  }

  /** The members with fewer than k members above them. */
  function Top(s: set<Member>, k: nat): set<Member> {
    set m | m in s && |Above(s, m)| < k
  }

  lemma {:induction false} LeastExists(s: set<Member>) returns (m: Member)
    requires s != {}
    ensures m in s && forall x :: x in s && x != m ==> Below(m, x)
    decreases |s|
  {
    m :| m in s;
    var rest := s - {m};
    if rest != {} {
      assert forall x :: x in s ==> x == m || x in rest;
      var r := LeastExists(rest);
      if !Below(m, r) { m := r; }
    }
  }

  lemma {:induction false} TopSize(s: set<Member>, k: nat)
    ensures |Top(s, k)| == if |s| <= k then |s| else k
    ensures |s| <= k ==> Top(s, k) == s
    decreases |s|
  {
    forall m | m in s ensures |Above(s, m)| < |s| {
      SubsetSize(Above(s, m), s - {m});
    }
    if |s| <= k {
      assert Top(s, k) == s;
    } else {
      var least := LeastExists(s);
      var rest := s - {least};
      assert Above(s, least) == rest;
      forall m | m in rest ensures Above(s, m) == Above(rest, m) {}
      assert Top(s, k) == Top(rest, k);
      TopSize(rest, k);
    }
  }

  /** Whatever falls out of the top k lies below all of it. */
  lemma {:induction false} TopIsUpper(s: set<Member>, k: nat, y: Member)
    requires y in s && y !in Top(s, k)
    ensures Top(s, k) <= Above(s, y) && |Top(s, k)| == k
  {
    forall m | m in Top(s, k) ensures Below(y, m) {
      if !Below(y, m) {
        assert Above(s, y) <= Above(s, m);
        SubsetSize(Above(s, y), Above(s, m));
      }
    }
    TopSize(s, k);
  }

  /** Keeping only the top k before an insert loses nothing: the fast form refines the full history. */
  lemma {:induction false} TopAfterInsert(s: set<Member>, k: nat, x: Member)
    ensures Top(Top(s, k) + {x}, k) == Top(s + {x}, k)
  {
    var t := Top(s, k);
    forall m ensures m in Top(t + {x}, k) <==> m in Top(s + {x}, k) {
      SubsetSize(Above(t + {x}, m), Above(s + {x}, m));
      SubsetSize(Above(s, m), Above(s + {x}, m));
      if m in Top(t + {x}, k) && Above(t + {x}, m) != Above(s + {x}, m) {
        var y :| y in Above(s + {x}, m) && y !in Above(t + {x}, m);
        TopIsUpper(s, k, y);
        assert t <= Above(t + {x}, m);
        SubsetSize(t, Above(t + {x}, m));
      }
    }
  }

  /** Removing the |s| - k lowest members by rank leaves exactly the top k. */
  lemma {:induction false} LowestAreTheRest(s: set<Member>, k: nat, low: set<Member>)
    requires low <= s && |low| + k == |s|
    requires forall a, b :: a in low && b in s - low ==> Below(a, b)
    ensures s - low == Top(s, k)
  {
    assert |s - low| == k;
    forall m | m in s ensures m in Top(s, k) <==> m !in low {
      if m in low {
        SubsetSize(s - low, Above(s, m));
      } else {
        assert m in s - low;
        assert Above(s, m) <= s - low - {m};
        SubsetSize(Above(s, m), s - low - {m});
      }
    }
  }
}
