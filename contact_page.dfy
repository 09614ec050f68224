// The index arithmetic of `ContactDirectory` (app `ContactPage.kt`): the list
// lays out, for each entry of the initials map in order, one sticky header
// followed by that entry's contacts. The letter rail maps a letter to the
// position of its header, and the first visible position back to a letter.
// Only the size of each entry's contact list matters here.
module ContactIndex {
  import opened Wrappers

  /** One entry of `contactInitialsMap`: an initial and how many contacts it has. */
  datatype Section = Section(initial: char, size: nat)

  /** Where entry `k`'s header stands: one header and the contacts of every
    * earlier entry come before it. */
  function Start(secs: seq<Section>, k: nat): nat
    requires k <= |secs|
  {
    if k == 0 then 0 else Start(secs, k - 1) + secs[k - 1].size + 1
  }

  /** The letter shown for a first visible position: the initial of the first
    * entry whose header-and-contacts range holds it, or '#' past the end. */
  function InitialAt(secs: seq<Section>, index: int): char
  {
    InitialFrom(secs, 0, index)
  }

  function InitialFrom(secs: seq<Section>, k: nat, index: int): char
    requires k <= |secs|
    decreases |secs| - k
  {
    if k == |secs| then '#'
    else if index < Start(secs, k + 1) then secs[k].initial
    else InitialFrom(secs, k + 1, index)
  }

  /** The first position of `initial`'s entry. */
  function FirstWith(secs: seq<Section>, initial: char): (k: int)
    ensures -1 <= k < |secs|
    ensures k == -1 <==> forall i :: 0 <= i < |secs| ==> secs[i].initial != initial
    ensures 0 <= k ==> secs[k].initial == initial && forall i :: 0 <= i < k ==> secs[i].initial != initial
  {
    if secs == [] then -1
    else if secs[0].initial == initial then 0
    else
      var k := FirstWith(secs[1..], initial);
      if k == -1 then -1 else k + 1
  }

  /** `currentInitial`: the `forEachIndexed` over the entries with its early
    * return, and '#' when no entry holds the position. */
  method CurrentInitial(secs: seq<Section>, firstVisibleIndex: int) returns (c: char)
    ensures c == InitialAt(secs, firstVisibleIndex)
  {
    var cumulativeIndex := 0;
    var k := 0;
    while k < |secs|
      invariant 0 <= k <= |secs|
      invariant cumulativeIndex == Start(secs, k)
      invariant InitialFrom(secs, k, firstVisibleIndex) == InitialAt(secs, firstVisibleIndex)
    {
      var itemCount := secs[k].size + 1;
      if firstVisibleIndex < cumulativeIndex + itemCount {
        return secs[k].initial;
      }
      cumulativeIndex := cumulativeIndex + itemCount;
      k := k + 1;
    }
    c := '#';
  }

  /** The scroll a letter triggers, the same for a drag and a click: none
    * unless the letter is a key, else the sum of `size + 1` over the entries
    * before it (`takeWhile { it.key != letter }`). */
  method ScrollTarget(secs: seq<Section>, selected: char) returns (target: Option<nat>)
    ensures FirstWith(secs, selected) == -1 ==> target == None
    ensures FirstWith(secs, selected) != -1 ==> target == Some(Start(secs, FirstWith(secs, selected)))
  {
    if FirstWith(secs, selected) == -1 {
      return None;
    }
    var scrollToPosition := 0;
    var k := 0;
    while k < |secs| && secs[k].initial != selected
      invariant 0 <= k <= FirstWith(secs, selected)
      invariant scrollToPosition == Start(secs, k)
    {
      scrollToPosition := scrollToPosition + secs[k].size + 1;
      k := k + 1;
    }
    target := Some(scrollToPosition);
  }

  /** Entry `k` covers the positions from its header to its last contact. */
  lemma {:induction false} InitialInRange(secs: seq<Section>, k: nat, index: int)
    requires k < |secs|
    requires Start(secs, k) <= index < Start(secs, k + 1)
    ensures InitialAt(secs, index) == secs[k].initial
  {
    forall j | 0 <= j <= k ensures InitialFrom(secs, j, index) == InitialFrom(secs, k, index) {
      StepsTo(secs, j, k, index);
    }
  }

  lemma StartMonotone(secs: seq<Section>, j: nat, k: nat)
    requires j <= k <= |secs|
    ensures Start(secs, j) <= Start(secs, k)
    decreases k - j
  {
    if j < k {
      StartMonotone(secs, j, k - 1);
    }
  }

  /** Before entry `k`'s header every earlier entry is passed over. */
  lemma {:induction false} StepsTo(secs: seq<Section>, j: nat, k: nat, index: int)
    requires j <= k < |secs|
    requires Start(secs, k) <= index
    ensures InitialFrom(secs, j, index) == InitialFrom(secs, k, index)
    decreases k - j
  {
    if j < k {
      StartMonotone(secs, j + 1, k);
      StepsTo(secs, j + 1, k, index);
    }
  }

  /** Round trip: scrolling to a letter's target shows that letter. */
  lemma ScrollShowsLetter(secs: seq<Section>, letter: char)
    requires FirstWith(secs, letter) != -1
    ensures InitialAt(secs, Start(secs, FirstWith(secs, letter))) == letter
  {
    var k := FirstWith(secs, letter);
    InitialInRange(secs, k, Start(secs, k));
  }

  /** Past the last contact the rail shows '#'. */
  lemma {:induction false} PastTheEnd(secs: seq<Section>, index: int)
    requires index >= Start(secs, |secs|)
    ensures InitialAt(secs, index) == '#'
  {
    forall j | 0 <= j <= |secs| ensures InitialFrom(secs, j, index) == '#' {
      PastFrom(secs, j, index);
    }
  }

  lemma {:induction false} PastFrom(secs: seq<Section>, j: nat, index: int)
    requires j <= |secs| && index >= Start(secs, |secs|)
    ensures InitialFrom(secs, j, index) == '#'
    decreases |secs| - j
  {
    if j < |secs| {
      StartMonotone(secs, j + 1, |secs|);
      PastFrom(secs, j + 1, index);
    }
  }

  /** `listOf('#') + ('A'..'Z')`. */
  const CharList: seq<char> := "#ABCDEFGHIJKLMNOPQRSTUVWXYZ"

  /** `coerceIn(0, charList.size - 1)` of the row a drag lands on. */
  function DragIndex(row: int): (i: nat)
    ensures i < |CharList|
    ensures 0 <= row < |CharList| ==> i == row
  {
    if row < 0 then 0 else if row > |CharList| - 1 then |CharList| - 1 else row
  }

  /** The rail has 27 letters: '#', then A to Z in order. */
  lemma CharListLetters()
    ensures |CharList| == 27
    ensures CharList[0] == '#'
    ensures forall i :: 1 <= i < 27 ==> CharList[i] == ('A' as int + i - 1) as char
    ensures CharList[1] == 'A' && CharList[26] == 'Z'
  {
  }
}
