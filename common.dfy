/// Small helpers shared by every module of the model.
module Common {

  datatype Option<T> = None | Some(value: T)

  /// No object (or value) occurs twice in the sequence.
  ghost predicate Distinct<T>(s: seq<T>)
  {
    forall i, j :: 0 <= i < j < |s| ==> s[i] != s[j]
  }

  /// The elements of `s` whose flag in `drop` is false, in their original order.
  /// This is what `array.filter(e => !e.markedForDeletion)` computes once the
  /// flags have been read out of the objects.
  function Keep<T>(s: seq<T>, drop: seq<bool>): (r: seq<T>)
    requires |drop| == |s|
    ensures |r| <= |s|
  {
    if s == [] then []
    else if drop[0] then Keep(s[1..], drop[1..])
    else [s[0]] + Keep(s[1..], drop[1..])
  }

  /// An element survives the filter exactly when it occurs at a position that is
  /// not dropped.
  lemma {:induction false} KeepMembers<T>(s: seq<T>, drop: seq<bool>, x: T)
    requires |drop| == |s|
    ensures x in Keep(s, drop) <==> exists i :: 0 <= i < |s| && s[i] == x && !drop[i]
  {
    if s != [] {
      KeepMembers(s[1..], drop[1..], x);
      if x in Keep(s[1..], drop[1..]) {
        var i :| 1 <= i + 1 < |s| + 1 && 0 <= i < |s[1..]| && s[1..][i] == x && !drop[1..][i];
        assert s[i + 1] == x && !drop[i + 1];
      }
      if exists i :: 0 <= i < |s| && s[i] == x && !drop[i] {
        var i :| 0 <= i < |s| && s[i] == x && !drop[i];
        if i > 0 {
          assert s[1..][i - 1] == x && !drop[1..][i - 1];
        }
      }
    }
  }

  /// The positions whose flag in `drop` is false, in increasing order.
  function KeptPositions(drop: seq<bool>): seq<nat>
  {
    if drop == [] then []
    else
      var rest := KeptPositions(drop[1..]);
      (if drop[0] then [] else [0]) + seq(|rest|, k requires 0 <= k < |rest| => rest[k] + 1)
  }

  /// The kept positions are undropped positions, in strictly increasing order.
  lemma {:induction false} KeptPositionsSound(drop: seq<bool>)
    ensures forall k :: 0 <= k < |KeptPositions(drop)| ==>
      KeptPositions(drop)[k] < |drop| && !drop[KeptPositions(drop)[k]]
    ensures forall k, l :: 0 <= k < l < |KeptPositions(drop)| ==> KeptPositions(drop)[k] < KeptPositions(drop)[l]
  {
    if drop != [] {
      var tail := drop[1..];
      KeptPositionsSound(tail);
      var rest := KeptPositions(tail);
      assert forall k :: 0 <= k < |rest| ==> rest[k] < |tail| && !tail[rest[k]];
      var shifted := seq(|rest|, k requires 0 <= k < |rest| => rest[k] + 1);
      forall k | 0 <= k < |shifted| ensures shifted[k] < |drop| && !drop[shifted[k]] {
        assert tail[rest[k]] == drop[rest[k] + 1];
      }
      assert KeptPositions(drop) == (if drop[0] then [] else [0]) + shifted;
    }
  }

  /// Every undropped position is kept.
  lemma {:induction false} KeptPositionsComplete(drop: seq<bool>)
    ensures forall i :: 0 <= i < |drop| && !drop[i] ==> i in KeptPositions(drop)
  {
    if drop != [] {
      KeptPositionsComplete(drop[1..]);
      var rest := KeptPositions(drop[1..]);
      var shifted := seq(|rest|, k requires 0 <= k < |rest| => rest[k] + 1);
      assert KeptPositions(drop) == (if drop[0] then [] else [0]) + shifted;
      forall i | 0 < i < |drop| && !drop[i] ensures i in shifted {
        assert !drop[1..][i - 1];
        var k :| 0 <= k < |rest| && rest[k] == i - 1;
        assert shifted[k] == i;
      }
    }
  }

  /// The k-th element kept is the element at the k-th kept position.
  lemma {:induction false} KeepAtPositions<T>(s: seq<T>, drop: seq<bool>)
    requires |drop| == |s|
    ensures var f := KeptPositions(drop);
      |f| == |Keep(s, drop)| && forall k :: 0 <= k < |f| ==> f[k] < |s| && Keep(s, drop)[k] == s[f[k]]
  {
    if s != [] {
      KeepAtPositions(s[1..], drop[1..]);
      var rest := KeptPositions(drop[1..]);
      var shifted := seq(|rest|, k requires 0 <= k < |rest| => rest[k] + 1);
      var t := Keep(s[1..], drop[1..]);
      forall k | 0 <= k < |shifted| ensures shifted[k] < |s| && t[k] == s[shifted[k]] {
        assert s[1..][rest[k]] == s[rest[k] + 1];
      }
      if drop[0] {
        assert KeptPositions(drop) == shifted && Keep(s, drop) == t;
      } else {
        var f := KeptPositions(drop);
        assert f == [0] + shifted && Keep(s, drop) == [s[0]] + t;
        forall k | 1 <= k < |f| ensures f[k] == shifted[k - 1] && Keep(s, drop)[k] == t[k - 1] {
        }
      }
    }
  }

  /// The filter keeps the survivors in their original order: the k-th element
  /// kept is the element at the k-th undropped position, the positions kept
  /// strictly increase, and every undropped position is kept.
  lemma KeepOrder<T>(s: seq<T>, drop: seq<bool>)
    requires |drop| == |s|
    ensures var f := KeptPositions(drop);
      |f| == |Keep(s, drop)| &&
      (forall k :: 0 <= k < |f| ==> f[k] < |s| && !drop[f[k]] && Keep(s, drop)[k] == s[f[k]]) &&
      (forall k, l :: 0 <= k < l < |f| ==> f[k] < f[l]) &&
      (forall i :: 0 <= i < |s| && !drop[i] ==> i in f)
  {
    KeptPositionsSound(drop);
    KeptPositionsComplete(drop);
    KeepAtPositions(s, drop);
  }

  /// The deletion flags of `s`, read out element by element.
  function Marks<T>(s: seq<T>, marked: T -> bool): (r: seq<bool>)
    ensures |r| == |s| && forall i :: 0 <= i < |s| ==> r[i] == marked(s[i])
  {
    seq(|s|, i requires 0 <= i < |s| => marked(s[i]))
  }

  /// Filtering by the elements' own flags keeps exactly the unflagged elements.
  lemma KeepUnmarked<T>(s: seq<T>, marked: T -> bool)
    ensures forall x :: x in Keep(s, Marks(s, marked)) <==> x in s && !marked(x)
  {
    forall x ensures x in Keep(s, Marks(s, marked)) <==> x in s && !marked(x) {
      KeepMembers(s, Marks(s, marked), x);
    }
  }

  /// Filtering a sequence without repetitions gives one without repetitions.
  lemma {:induction false} KeepDistinct<T>(s: seq<T>, drop: seq<bool>)
    requires |drop| == |s| && Distinct(s)
    ensures Distinct(Keep(s, drop))
  {
    if s != [] {
      assert Distinct(s[1..]) by {
        forall i, j | 0 <= i < j < |s[1..]| ensures s[1..][i] != s[1..][j] {
          assert s[1..][i] == s[i + 1] && s[1..][j] == s[j + 1];
        }
      }
      KeepDistinct(s[1..], drop[1..]);
      if !drop[0] {
        var rest := Keep(s[1..], drop[1..]);
        forall y | y in rest ensures y != s[0] {
          KeepMembers(s[1..], drop[1..], y);
          var i :| 0 <= i < |s[1..]| && s[1..][i] == y && !drop[1..][i];
          assert s[i + 1] == y;
        }
        var r := [s[0]] + rest;
        forall i, j | 0 <= i < j < |r| ensures r[i] != r[j] {
          if i == 0 {
            assert r[j] == rest[j - 1] && rest[j - 1] in rest;
          } else {
            assert r[i] == rest[i - 1] && r[j] == rest[j - 1];
          }
        }
      }
    }
  }

  /// Whatever holds of every element at a position that is not dropped holds
  /// of every element of the filtered sequence.
  lemma {:induction false} KeepAll<T>(s: seq<T>, drop: seq<bool>, p: T -> bool)
    requires |drop| == |s|
    requires forall i :: 0 <= i < |s| && !drop[i] ==> p(s[i])
    ensures forall k :: 0 <= k < |Keep(s, drop)| ==> p(Keep(s, drop)[k])
  {
    if s != [] {
      KeepAll(s[1..], drop[1..], p);
    }
  }
}
