/** The args store: per story id, the initial args and the current args,
    updated in place by seeding, user updates, persisted values and resets. */
module Store {
  import opened ArgValues
  import opened Coercion
  import opened Persisted
  import opened Reset

  /** Reading or changing the args of a story that was never seeded. */
  datatype StoreError = NoArgsKnown(id: StoryId)

  datatype Outcome = Pass | Fail(error: StoreError)

  /** What the store needs to know about a story. */
  datatype Story = Story(id: StoryId, argTypes: ArgTypes, initialArgs: Args)

  class ArgsStore {
    var initialArgsByStoryId: map<StoryId, Args>
    var argsByStoryId: map<StoryId, Args>

    /** Both tables know the same stories, and every initial arg of a story
        has a current value. */
    ghost predicate Valid()
      reads this
    {
      && initialArgsByStoryId.Keys == argsByStoryId.Keys
      && forall id :: id in initialArgsByStoryId ==>
           initialArgsByStoryId[id].Keys <= argsByStoryId[id].Keys
    }

    constructor ()
      ensures Valid()
      ensures initialArgsByStoryId == map[] && argsByStoryId == map[]
    {
      initialArgsByStoryId := map[];
      argsByStoryId := map[];
    }

    /** Seeds both tables for `id` with `args`; only the first call for an id
        counts, later ones change nothing. */
    method SetInitial(id: StoryId, args: Args)
      requires Valid()
      modifies this
      ensures Valid()
      ensures id in old(initialArgsByStoryId) ==>
        initialArgsByStoryId == old(initialArgsByStoryId) && argsByStoryId == old(argsByStoryId)
      ensures id !in old(initialArgsByStoryId) ==>
        && initialArgsByStoryId == old(initialArgsByStoryId)[id := args]
        && argsByStoryId == old(argsByStoryId)[id := args]
    {
      if id !in initialArgsByStoryId {
        initialArgsByStoryId := initialArgsByStoryId[id := args];
        argsByStoryId := argsByStoryId[id := args];
      }
    }

    /** The current args of `id`; an id that was never seeded is an error,
        never an empty set of args. */
    method Get(id: StoryId) returns (r: Result<Args, StoreError>)
      ensures id in argsByStoryId ==> r == Success(argsByStoryId[id])
      ensures id !in argsByStoryId ==> r == Failure(NoArgsKnown(id))
    {
      if id !in argsByStoryId {
        return Failure(NoArgsKnown(id));
      }
      r := Success(argsByStoryId[id]);
    }

    /** Shallow update of the current args of `id` with `upd`. */
    method Update(id: StoryId, upd: Args) returns (r: Outcome)
      requires Valid()
      modifies this
      ensures Valid()
      ensures initialArgsByStoryId == old(initialArgsByStoryId)
      ensures id !in old(argsByStoryId) ==>
        r == Fail(NoArgsKnown(id)) && argsByStoryId == old(argsByStoryId)
      ensures id in old(argsByStoryId) ==>
        r == Pass && argsByStoryId == old(argsByStoryId)[id := Overlay(old(argsByStoryId)[id], upd)]
    {
      if id !in argsByStoryId {
        return Fail(NoArgsKnown(id));
      }
      argsByStoryId := argsByStoryId[id := Overlay(argsByStoryId[id], upd)];
      r := Pass;
    }

    /** Admits `persisted` against the story's descriptors, merges each
        admitted value over its current one and applies the result as an
        update. */
    method UpdateFromPersisted(story: Story, persisted: Args) returns (r: Outcome)
      requires Valid()
      modifies this
      ensures Valid()
      ensures initialArgsByStoryId == old(initialArgsByStoryId)
      ensures story.id !in old(argsByStoryId) ==>
        r == Fail(NoArgsKnown(story.id)) && argsByStoryId == old(argsByStoryId)
      ensures story.id in old(argsByStoryId) ==>
        && r == Pass
        && argsByStoryId == old(argsByStoryId)[story.id :=
             ApplyPersisted(old(argsByStoryId)[story.id], story.argTypes, persisted)]
    {
      var current := Get(story.id);
      if current.Failure? {
        return Fail(current.error);
      }
      r := Update(story.id, PersistedUpdate(current.value, story.argTypes, persisted));
    }

    /** Replaces the initial args of the story with the new ones and resets its
        current args to them, keeping every arg the user changed relative to
        the previous initial args. */
    method ResetOnImplementationChange(story: Story, previousStory: Story) returns (r: Outcome)
      requires Valid()
      requires story.id == previousStory.id
      modifies this
      ensures Valid()
      ensures story.id !in old(argsByStoryId) ==>
        && r == Fail(NoArgsKnown(story.id))
        && initialArgsByStoryId == old(initialArgsByStoryId)
        && argsByStoryId == old(argsByStoryId)
      ensures story.id in old(argsByStoryId) ==>
        && r == Pass
        && initialArgsByStoryId == old(initialArgsByStoryId)[story.id := story.initialArgs]
        && argsByStoryId == old(argsByStoryId)[story.id :=
             ResetArgs(previousStory.initialArgs, old(argsByStoryId)[story.id], story.initialArgs)]
      ensures
        (story.id in old(argsByStoryId) &&
         previousStory.initialArgs == story.initialArgs == old(initialArgsByStoryId)[story.id]) ==>
        argsByStoryId == old(argsByStoryId)
    {
      var current := Get(story.id);
      if current.Failure? {
        return Fail(current.error);
      }
      var next := ResetArgs(previousStory.initialArgs, current.value, story.initialArgs);
      ResetCoversNewInitial(previousStory.initialArgs, current.value, story.initialArgs);
      if previousStory.initialArgs == story.initialArgs == initialArgsByStoryId[story.id] {
        SameInitialKeepsCurrent(story.initialArgs, current.value);
      }
      initialArgsByStoryId := initialArgsByStoryId[story.id := story.initialArgs];
      argsByStoryId := argsByStoryId[story.id := next];
      r := Pass;
    }
  }
}
