/**
 * The light-animation registry: every started animation sits on an
 * intrusive singly-linked list threaded through its own `next_animation`
 * field; a stopped animation holds a sentinel there instead of a link.
 * One background process serves all animations; it is started with the
 * first animation and exits when the last one is taken off the head.
 *
 * The list is also kept as a ghost sequence (`list`), and `known` holds
 * every initialised animation so that "started iff listed" can be stated.
 */
module Animation {

  /** The `next_animation` field: end of list, the stopped sentinel, or the next animation. */
  datatype Link = Null | Stopped | Next(animation: Animation)

  class Animation {
    var link: Link

    /** Allocation; the link is not meaningful before `Init`. */
    constructor ()
      ensures link == Null
    {
      link := Null;
    }

    /** `is_started`: the link is anything but the stopped sentinel. */
    function IsStarted(): bool
      reads this
    {
      link != Stopped
    }
  }

  /** Position of an element of a sequence. */
  ghost function IndexOf(s: seq<Animation>, a: Animation): (k: nat)
    requires a in s
    ensures k < |s| && s[k] == a
  {
    if s[0] == a then 0 else 1 + IndexOf(s[1..], a)
  }

  ghost predicate Distinct(s: seq<Animation>) {
    forall i, j :: 0 <= i < j < |s| ==> s[i] != s[j]
  }

  /** Removing position k of a duplicate-free sequence keeps it duplicate-free and drops exactly that element. */
  lemma RemoveAt(s: seq<Animation>, k: nat)
    requires Distinct(s) && k < |s|
    ensures var r := s[..k] + s[k + 1..];
      && |r| == |s| - 1
      && Distinct(r)
      && (forall j :: 0 <= j < |r| ==> r[j] == if j < k then s[j] else s[j + 1])
      && (forall x :: x in r <==> x in s && x != s[k])
  {
    var r := s[..k] + s[k + 1..];
    assert forall j :: 0 <= j < |r| ==> r[j] == if j < k then s[j] else s[j + 1];
    forall x | x in s && x != s[k] ensures x in r {
      var n := IndexOf(s, x);
      assert r[if n < k then n else n - 1] == x;
    }
  }

  class Registry {
    var head: Animation?
    /** Whether the animation process is running. */
    var processRunning: bool
    ghost var list: seq<Animation>
    ghost var known: set<Animation>

    /** The link the element at position i of the list must hold. */
    ghost function LinkAt(i: nat): Link
      reads this
    {
      if i + 1 < |list| then Next(list[i + 1]) else Null
    }

    /** Every listed animation is initialised and links to the one after it. */
    ghost predicate Linked()
      reads this, known
    {
      forall i :: 0 <= i < |list| ==> list[i] in known && list[i].link == LinkAt(i)
    }

    /** An initialised animation is started exactly when it is on the list. */
    ghost predicate StartedIffListed()
      reads this, known
    {
      forall x :: x in known ==> (x.IsStarted() <==> x in list)
    }

    ghost predicate Valid()
      reads this, known
    {
      && Distinct(list)
      && head == (if list == [] then null else list[0])
      && Linked()
      && StartedIffListed()
      && processRunning == (list != [])
    }

    /** An empty registry, process not running. */
    constructor ()
      ensures Valid() && list == [] && known == {} && head == null && !processRunning
    {
      head := null;
      processRunning := false;
      list := [];
      known := {};
    }

    /** Invariant: an initialised animation is started exactly when it is on the list. */
    lemma StartedExactlyWhenListed(a: Animation)
      requires Valid() && a in known
      ensures a.IsStarted() <==> a in list
    {
    }

    /** `init`: mark an animation stopped. It must not be on the list. */
    method Init(a: Animation)
      requires Valid() && a !in list
      modifies this, a
      ensures Valid() && !a.IsStarted()
      ensures list == old(list) && known == old(known) + {a}
      ensures head == old(head) && processRunning == old(processRunning)
    {
      a.link := Stopped;
      known := known + {a};
      assert Linked() by {
        forall i | 0 <= i < |list| ensures list[i] in known && list[i].link == LinkAt(i) {
          assert list[i] != a;
          assert old(list[i] in known && list[i].link == LinkAt(i));
        }
      }
    }

    /** `start`: push a stopped animation onto the front of the list and run the process. */
    method Start(a: Animation)
      requires Valid() && a in known && !a.IsStarted()
      modifies this, a
      ensures Valid() && a.IsStarted()
      ensures list == [a] + old(list) && known == old(known)
      ensures head == a && processRunning
    {
      ghost var was := list;
      assert a !in was;
      a.link := if head == null then Null else Next(head);
      head := a;
      processRunning := true;
      list := [a] + list;
      PushKeepsLinked(a);
      PushKeepsStarted(a);
      PushKeepsDistinct(a, was);
    }

    /** Pushing an animation that is not listed keeps the list free of duplicates. */
    static lemma PushKeepsDistinct(a: Animation, s: seq<Animation>)
      requires Distinct(s) && a !in s
      ensures Distinct([a] + s)
    {
      var r := [a] + s;
      forall i, j | 0 <= i < j < |r| ensures r[i] != r[j] {
        if i > 0 {
          assert r[i] == s[i - 1] && r[j] == s[j - 1];
        } else {
          assert r[j] in s;
        }
      }
    }

    twostate lemma PushKeepsLinked(a: Animation)
      requires old(Linked()) && a in known && known == old(known)
      requires list == [a] + old(list)
      requires a.link == (if old(list) == [] then Null else Next(old(list)[0]))
      requires forall x :: x in known && x != a ==> x.link == old(x.link)
      requires a !in old(list)
      ensures Linked()
    {
      forall i | 0 <= i < |list| ensures list[i] in known && list[i].link == LinkAt(i) {
        if i > 0 {
          assert list[i] == old(list)[i - 1] && list[i] != a;
          assert old(list[i - 1] in known && list[i - 1].link == LinkAt(i - 1));
        }
      }
    }

    twostate lemma PushKeepsStarted(a: Animation)
      requires old(StartedIffListed()) && a in known && known == old(known)
      requires list == [a] + old(list) && a.IsStarted()
      requires forall x :: x in known && x != a ==> x.link == old(x.link)
      ensures StartedIffListed()
    {
      forall x | x in known ensures x.IsStarted() <==> x in list {
        assert x in list <==> x == a || x in old(list);
        if x != a {
          assert x.IsStarted() == old(x.IsStarted());
        }
      }
    }

    /**
     * `stop`: unlink a started animation and mark it stopped. The other
     * animations stay on the list in their order; the process exits when
     * the list becomes empty.
     */
    method Stop(a: Animation)
      requires Valid() && head != null && a in known && a.IsStarted()
      modifies this, known
      ensures Valid() && !a.IsStarted() && a !in list
      ensures a in old(list)
      ensures list == old(list)[..IndexOf(old(list), a)] + old(list)[IndexOf(old(list), a) + 1..]
      ensures known == old(known)
      ensures old(head) == a && list == [] ==> !processRunning
      ensures list != [] ==> processRunning
    {
      ghost var was := list;
      ghost var k := IndexOf(list, a);
      if head == a {
        assert k == 0;
        head := if a.link.Next? then a.link.animation else null;
        if head == null {
          processRunning := false;
        }
      } else {
        var p: Animation? := head;
        ghost var i := 0;
        while p != null
          invariant list == was && head == old(head) && known == old(known)
          invariant forall x :: x in known ==> x.link == old(x.link)
          invariant 0 <= i < k && p == list[i]
          decreases k - i
        {
          if p.link == Next(a) {
            assert list[i + 1] == a;
            p.link := a.link;
            break;
          }
          p := if p.link.Next? then p.link.animation else null;
          i := i + 1;
        }
        // The loop is left only through its break, with p the predecessor of a.
        assert i + 1 == k && p == was[k - 1];
        assert p.link == old(a.link);
        assert forall x :: x in known && x != p ==> x.link == old(x.link);
      }
      ghost var relinked := forall x :: x in known && x != a ==>
        x.link == (if k > 0 && x == was[k - 1] then old(a.link) else old(x.link));
      assert relinked;
      a.link := Stopped;
      list := was[..k] + was[k + 1..];
      RemoveAt(was, k);
      assert head == (if list == [] then null else list[0]);
      assert processRunning == (list != []);
      UnlinkKeepsLinked(k);
      UnlinkKeepsStarted(k);
    }

    /**
     * Taking position k off the list keeps every link right when its
     * predecessor takes over the removed animation's link and every other
     * link stays as it was.
     */
    twostate lemma UnlinkKeepsLinked(k: nat)
      requires old(Linked()) && old(Distinct(list)) && known == old(known)
      requires k < |old(list)|
      requires list == old(list)[..k] + old(list)[k + 1..]
      requires forall x :: x in known && x != old(list)[k] ==>
        x.link == (if k > 0 && x == old(list)[k - 1] then old(list[k].link) else old(x.link))
      ensures Linked()
    {
      ghost var was := old(list);
      ghost var a := was[k];
      RemoveAt(was, k);
      forall j | 0 <= j < |list|
        ensures list[j] in known && list[j].link == LinkAt(j)
      {
        var m := if j < k then j else j + 1;
        assert list[j] == was[m] && list[j] != a;
        assert old(was[m] in known && was[m].link == LinkAt(m));
        if k > 0 && j == k - 1 {
          assert old(a in known && a.link == LinkAt(k));
        }
      }
    }

    /** Marking the removed animation stopped keeps "started iff listed". */
    twostate lemma UnlinkKeepsStarted(k: nat)
      requires old(StartedIffListed()) && known == old(known)
      requires k < |old(list)| && old(list)[k] in known && !old(list)[k].IsStarted()
      requires forall x :: x in list <==> x in old(list) && x != old(list)[k]
      requires forall x :: x in known && x != old(list)[k] ==> (x.link == Stopped <==> old(x.link) == Stopped)
      ensures StartedIffListed() && old(list)[k] !in list
    {
      forall x | x in known
        ensures x.IsStarted() <==> x in list
      {
        if x != old(list)[k] {
          assert x.IsStarted() == old(x.IsStarted());
        }
      }
    }

    /** `stop_all`: stop the head until the list is empty. */
    method StopAll()
      requires Valid()
      modifies this, known
      ensures Valid() && list == [] && head == null && !processRunning
      ensures known == old(known)
      ensures forall a :: a in old(list) ==> !a.IsStarted()
    {
      while head != null
        invariant Valid() && known == old(known)
        invariant forall a :: a in old(list) ==> a in known
        decreases |list|
      {
        Stop(head);
      }
    }
  }
}
