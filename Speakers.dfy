/** The speaker store of the Whispr app: a list of speakers, each owning a
    list of saved configurations. Speakers are reference objects (two
    entries of the list may be the same speaker), configurations are
    values that the store only appends and removes. */
module Speakers {
  import opened Collections

  /** Stands for Foundation's `UUID`; ids are passed in, never generated. */
  type Uuid = nat

  /** A saved configuration. Its start and end times are not modelled. */
  datatype SpeakerConfig = SpeakerConfig(
    id: Uuid,
    name: string,
    volume: real,
    noiseCanceling: real,
    hasTimeTrigger: bool)

  class Speaker {
    /** A `var` in Swift, but nothing assigns it after construction, so the
        model makes it a `const`. */
    const id: Uuid
    var name: string
    /** Swift's `type` property (a keyword in Dafny). */
    var kind: string
    var volume: real
    var noiseCanceling: real
    var configs: seq<SpeakerConfig>

    /** `init(name:volume:noiseCanceling:)` with its default arguments; the
        kind is always "portable2" and the configurations start empty. */
    constructor (id: Uuid, name: string := "", volume: real := 50.0, noiseCanceling: real := 50.0)
      ensures this.id == id && this.name == name
      ensures this.volume == volume && this.noiseCanceling == noiseCanceling
      ensures kind == "portable2" && configs == []
    {
      this.id := id;
      this.name := name;
      this.kind := "portable2";
      this.volume := volume;
      this.noiseCanceling := noiseCanceling;
      this.configs := [];
    }
  }

  /** The predicate `{ $0.id == speakerId }` of the store's searches. */
  function IsSpeaker(speakerId: Uuid): Speaker -> bool {
    (s: Speaker) => s.id == speakerId
  }

  /** The predicate `{ $0.id == configId }`. */
  function IsConfig(configId: Uuid): SpeakerConfig -> bool {
    (c: SpeakerConfig) => c.id == configId
  }

  /** `ContentManager`. Its `speakers` is `private(set)` in Swift; Dafny has
      no such access control, so in this model any client may assign it. */
  class ContentManager {
    var speakers: seq<Speaker>

    /** The branch of `init` taken when nothing is stored. */
    constructor ()
      ensures speakers == []
    {
      speakers := [];
    }

    /** `add(_:)` */
    method Add(speaker: Speaker)
      modifies this`speakers
      ensures speakers == old(speakers) + [speaker]
    {
      speakers := speakers + [speaker];
    }

    /** `add(config:speakerId:)`: append to the first speaker with that id;
        every other speaker object keeps its configurations. */
    method AddConfig(config: SpeakerConfig, speakerId: Uuid)
      modifies (set s | s in speakers)`configs
      ensures speakers == old(speakers)
      ensures match FirstIndex(speakers, IsSpeaker(speakerId))
        case None =>
          forall j :: 0 <= j < |speakers| ==> speakers[j].configs == old(speakers[j].configs)
        case Some(i) =>
          && speakers[i].configs == old(speakers[i].configs) + [config]
          && forall j :: 0 <= j < |speakers| && speakers[j] != speakers[i] ==>
               speakers[j].configs == old(speakers[j].configs)
    {
      var found := FirstIndex(speakers, IsSpeaker(speakerId));
      if found.Some? {
        var speaker := speakers[found.value];
        speaker.configs := speaker.configs + [config];
      }
    }

    /** `delete(id:)`: every speaker with that id goes, the others stay in order. */
    method Delete(id: Uuid)
      modifies this`speakers
      ensures speakers == RemoveAll(old(speakers), IsSpeaker(id))
      ensures forall j :: 0 <= j < |speakers| ==> speakers[j].id != id
      ensures forall j :: 0 <= j < |old(speakers)| && old(speakers)[j].id != id ==>
                old(speakers)[j] in speakers
      ensures (forall j :: 0 <= j < |old(speakers)| ==> old(speakers)[j].id != id) ==>
                speakers == old(speakers)
    {
      if forall j :: 0 <= j < |speakers| ==> speakers[j].id != id {
        RemoveAllNoMatch(speakers, IsSpeaker(id));
      }
      speakers := RemoveAll(speakers, IsSpeaker(id));
    }

    /** `delete(configId:speakerId:)`: remove every configuration with
        `configId` from the first speaker with `speakerId` only. */
    method DeleteConfig(configId: Uuid, speakerId: Uuid)
      modifies (set s | s in speakers)`configs
      ensures speakers == old(speakers)
      ensures match FirstIndex(speakers, IsSpeaker(speakerId))
        case None =>
          forall j :: 0 <= j < |speakers| ==> speakers[j].configs == old(speakers[j].configs)
        case Some(i) =>
          && speakers[i].configs == RemoveAll(old(speakers[i].configs), IsConfig(configId))
          && (forall k :: 0 <= k < |speakers[i].configs| ==> speakers[i].configs[k].id != configId)
          && ((forall k :: 0 <= k < |old(speakers[i].configs)| ==> old(speakers[i].configs)[k].id != configId) ==>
                speakers[i].configs == old(speakers[i].configs))
          && forall j :: 0 <= j < |speakers| && speakers[j] != speakers[i] ==>
               speakers[j].configs == old(speakers[j].configs)
    {
      var found := FirstIndex(speakers, IsSpeaker(speakerId));
      if found.Some? {
        var speaker := speakers[found.value];
        if forall k :: 0 <= k < |speaker.configs| ==> speaker.configs[k].id != configId {
          RemoveAllNoMatch(speaker.configs, IsConfig(configId));
        }
        speaker.configs := RemoveAll(speaker.configs, IsConfig(configId));
      }
    }
  }

  /** Ids need not be unique: with two speakers sharing an id, a new
      configuration goes to the one added first, and deleting that id
      removes both. */
  method SharedIdScenario(config: SpeakerConfig)
  {
    var store := new ContentManager();
    var first := new Speaker(7, "Kitchen");
    var second := new Speaker(7, "Garden");
    assert first.volume == 50.0 && first.kind == "portable2";
    store.Add(first);
    store.Add(second);
    store.AddConfig(config, 7);
    assert first.configs == [config];
    assert second.configs == [];
    store.DeleteConfig(config.id, 7);
    assert first.configs == [];
    store.Delete(7);
    assert store.speakers == [];
  }
}
