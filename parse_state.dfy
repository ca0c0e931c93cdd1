/**
 * The parser's mutable state: the current name of each root account type, and how many times
 * each tag is currently pushed (`pushtag` raises a count, `poptag` lowers it).
 */
module ParseStates {
  import opened Wrappers
  import opened Accounts
  import opened Externals

  /** Pushed tags and their counts; a tag that is not pushed has no entry. */
  type TagCounts = map<string, nat>

  /** Every entry counts at least one push. */
  predicate Positive(m: TagCounts)
  {
    forall t :: t in m ==> m[t] >= 1
  }

  /** The number of outstanding pushes of `tag`. */
  function Count(m: TagCounts, tag: string): nat
  {
    if tag in m then m[tag] else 0
  }

  /** `push_tag` on the counts: `*entry(tag).or_insert(0) += 1`. */
  function Pushed(m: TagCounts, tag: string): TagCounts
  {
    m[tag := Count(m, tag) + 1]
  }

  /** `pop_tag` on the counts: forget the tag at its last push, count down otherwise, fail if absent. */
  function Popped(m: TagCounts, tag: string): Result<TagCounts, string>
  {
    if tag !in m then Err("Attempting to pop absent tag: '" + tag + "'")
    else if m[tag] <= 1 then Ok(m - {tag})
    else Ok(m[tag := m[tag] - 1])
  }

  /** A push raises that tag's count by one (from zero when absent) and changes no other count. */
  lemma PushedCounts(m: TagCounts, tag: string)
    ensures Count(Pushed(m, tag), tag) == Count(m, tag) + 1
    ensures forall t :: t != tag ==> Count(Pushed(m, tag), t) == Count(m, t)
    ensures Pushed(m, tag).Keys == m.Keys + {tag}
    ensures Positive(m) ==> Positive(Pushed(m, tag))
  {
  }

  /** A pop fails exactly when the tag is absent; otherwise it lowers that count by one and no other. */
  lemma PoppedCounts(m: TagCounts, tag: string)
    requires Positive(m)
    ensures Popped(m, tag).Err? <==> tag !in m
    ensures Popped(m, tag).Ok? ==> Count(Popped(m, tag).value, tag) == Count(m, tag) - 1
    ensures Popped(m, tag).Ok? ==> forall t :: t != tag ==> Count(Popped(m, tag).value, t) == Count(m, t)
    ensures Popped(m, tag).Ok? ==> Positive(Popped(m, tag).value)
  {
  }

  /** A push followed by a pop of the same tag restores the counts. */
  lemma PushThenPop(m: TagCounts, tag: string)
    requires Positive(m)
    ensures Popped(Pushed(m, tag), tag) == Ok(m)
  {
    if tag in m {
      assert Pushed(m, tag)[tag := m[tag]] == m;
    } else {
      assert Pushed(m, tag) - {tag} == m;
    }
  }

  function PushN(m: TagCounts, tag: string, n: nat): TagCounts
  {
    if n == 0 then m else Pushed(PushN(m, tag, n - 1), tag)
  }

  function PopN(m: TagCounts, tag: string, n: nat): Result<TagCounts, string>
  {
    if n == 0 then Ok(m)
    else match Popped(m, tag)
      case Err(e) => Err(e)
      case Ok(m1) => PopN(m1, tag, n - 1)
  }

  lemma {:induction false} PushNPositive(m: TagCounts, tag: string, n: nat)
    requires Positive(m)
    ensures Positive(PushN(m, tag, n))
    ensures Count(PushN(m, tag, n), tag) == Count(m, tag) + n
  {
    if n > 0 {
      PushNPositive(m, tag, n - 1);
    }
  }

  /** n pushes are undone by exactly n pops. */
  lemma {:induction false} BalancedPushPop(m: TagCounts, tag: string, n: nat)
    requires Positive(m)
    ensures PopN(PushN(m, tag, n), tag, n) == Ok(m)
  {
    if n > 0 {
      PushNPositive(m, tag, n - 1);
      PushThenPop(PushN(m, tag, n - 1), tag);
      PopFirstInner(PushN(m, tag, n - 1), tag, n - 1);
      BalancedPushPop(m, tag, n - 1);
    }
  }

  /** Popping after one more push: the first pop cancels that push. */
  lemma PopFirstInner(m: TagCounts, tag: string, k: nat)
    requires Positive(m)
    ensures PopN(Pushed(m, tag), tag, k + 1) == PopN(m, tag, k)
  {
    PushThenPop(m, tag);
  }

  /** After n pushes of a tag that was absent, n + 1 pops fail. */
  lemma {:induction false} OnePopTooMany(m: TagCounts, tag: string, n: nat)
    requires Positive(m) && tag !in m
    ensures PopN(PushN(m, tag, n), tag, n + 1).Err?
  {
    if n == 0 {
    } else {
      PushNPositive(m, tag, n - 1);
      PopFirstInner(PushN(m, tag, n - 1), tag, n);
      OnePopTooMany(m, tag, n - 1);
    }
  }

  /** The root names a parse starts with: each type's default name. */
  function InitialRoots(f: Foreign): (m: map<AccountType, string>)
    ensures forall t: AccountType :: t in m && m[t] == f.defaultName(t)
  {
    AllTypesListed();
    map t: AccountType | t in AllAccountTypes :: f.defaultName(t)
  }

  lemma AllTypesListed()
    ensures forall t: AccountType :: t in AllAccountTypes
  {
    forall t: AccountType ensures t in AllAccountTypes {
      AllAccountTypesComplete(t);
    }
  }

  /** The state as a value, for the specification functions. */
  datatype Context = Context(roots: map<AccountType, string>, pushed: TagCounts)

  class ParseState {
    var rootNames: map<AccountType, string>
    var pushedTags: TagCounts

    /** Every root type has a name and every pushed tag a positive count. */
    ghost predicate Valid()
      reads this
    {
      (forall t: AccountType :: t in rootNames) && Positive(pushedTags)
    }

    function View(): Context
      reads this
    {
      Context(rootNames, pushedTags)
    }

    /** `ParseState::new`. */
    constructor(f: Foreign)
      ensures rootNames == InitialRoots(f) && pushedTags == map[]
      ensures Valid()
    {
      rootNames := InitialRoots(f);
      pushedTags := map[];
    }

    method PushTag(tag: string)
      requires Valid()
      modifies this
      ensures pushedTags == Pushed(old(pushedTags), tag)
      ensures rootNames == old(rootNames)
      ensures Valid()
    {
      if tag in pushedTags {
        pushedTags := pushedTags[tag := pushedTags[tag] + 1];
      } else {
        pushedTags := pushedTags[tag := 1];
      }
    }

    /** On an absent tag: an error, and nothing changes. */
    method PopTag(tag: string) returns (r: Result<(), string>)
      requires Valid()
      modifies this
      ensures Popped(old(pushedTags), tag).Err? ==>
        r == Err(Popped(old(pushedTags), tag).error) && pushedTags == old(pushedTags)
      ensures Popped(old(pushedTags), tag).Ok? ==>
        r == Ok(()) && pushedTags == Popped(old(pushedTags), tag).value
      ensures rootNames == old(rootNames)
      ensures Valid()
    {
      if tag in pushedTags {
        var count := pushedTags[tag];
        if count <= 1 {
          pushedTags := pushedTags - {tag};
        } else {
          pushedTags := pushedTags[tag := count - 1];
        }
        r := Ok(());
      } else {
        r := Err("Attempting to pop absent tag: '" + tag + "'");
      }
    }

    /** `get_pushed_tags`: every pushed tag once, in the map's order. */
    function PushedTags(f: Foreign): (r: seq<string>)
      reads this
      requires ValidOrder(f)
      ensures forall t :: t in r <==> t in pushedTags
    {
      f.iterOrder(pushedTags.Keys)
    }

    /** The root-name update `parse` makes on an option that renames a root. */
    method SetRootName(ty: AccountType, name: string)
      requires Valid()
      modifies this
      ensures rootNames == old(rootNames)[ty := name]
      ensures pushedTags == old(pushedTags)
      ensures Valid()
    {
      rootNames := rootNames[ty := name];
    }
  }
}
