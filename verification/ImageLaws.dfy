/** What runs of the image table count, keep and delete. */
module ImageLaws {
  import opened Basics
  import opened ImageTables

  // ----- the pins -----

  function Pins(events: seq<Event>, key: string): nat {
    if events == [] then 0
    else Pins(events[..|events| - 1], key) + if events[|events| - 1] == Event.Pin(key) then 1 else 0
  }

  function Unpins(events: seq<Event>, key: string): nat {
    if events == [] then 0
    else Unpins(events[..|events| - 1], key) + if events[|events| - 1] == Event.Unpin(key) then 1 else 0
  }

  function PinCount(t: Table, key: string): nat {
    if key in t.pins then t.pins[key] else 0
  }

  lemma PinStep(cap: nat, t: Table, ev: Event, t': Table, key: string)
    requires Inv(cap, t) && Next(cap, t, ev, t')
    ensures PinCount(t', key) + (if ev == Event.Unpin(key) then 1 else 0) ==
            PinCount(t, key) + (if ev == Event.Pin(key) then 1 else 0)
  {
  }

  /** The count of a key is the number of its pins less the number of its unpins, in every run. */
  lemma {:induction false} PinsCounted(cap: nat, states: seq<Table>, events: seq<Event>, k: nat, key: string)
    requires IsRun(cap, states, events) && k <= |events|
    ensures PinCount(states[k], key) == Pins(events[..k], key) - Unpins(events[..k], key)
  {
    if k > 0 {
      PinsCounted(cap, states, events, k - 1, key);
      RunInv(cap, states, events, k - 1);
      PinStep(cap, states[k - 1], events[k - 1], states[k], key);
      assert events[..k][..k - 1] == events[..k - 1];
    }
  }

  /** While one of several writes that hold an image has not settled, the image is in the table. */
  lemma UnsettledPresent(cap: nat, states: seq<Table>, events: seq<Event>, k: nat, key: string)
    requires IsRun(cap, states, events) && k <= |events| && Pins(events[..k], key) > Unpins(events[..k], key)
    ensures key in states[k].images
  {
    PinsCounted(cap, states, events, k, key);
    RunInv(cap, states, events, k);
    assert key in PinnedKeys(states[k]);
  }

  // ----- what a prune deletes -----

  /** The keys that a prune spares: those of the history, of pins, of the draft and of the reset baseline. */
  ghost predicate Spared(t: Table, key: string) {
    key in t.held || key in t.pins || (key != "" && key in {t.present, t.baseline})
  }

  /** A prune deletes exactly the images that nothing holds, and none once the history has failed. */
  lemma PruneExactly(t: Table, key: string)
    requires "" !in t.pins
    ensures key in AfterPrune(t).images <==> key in t.images && (t.failed || Spared(t, key))
    ensures key in AfterPrune(t).images ==> AfterPrune(t).images[key] == t.images[key]
    ensures AfterPrune(t) == t.(images := AfterPrune(t).images)
  {
  }

  /** Nothing else stays in the table: in every run of a history that has not failed each image is held by something. */
  ghost predicate Tight(t: Table) {
    !t.failed ==> forall key :: key in t.images ==> Spared(t, key)
  }

  lemma TightStep(cap: nat, t: Table, ev: Event, t': Table)
    requires Inv(cap, t) && Tight(t) && Next(cap, t, ev, t')
    ensures Tight(t')
  {
  }

  lemma {:induction false} RunTight(cap: nat, states: seq<Table>, events: seq<Event>, k: nat)
    requires IsRun(cap, states, events) && k <= |events|
    ensures Tight(states[k])
  {
    if k > 0 {
      RunTight(cap, states, events, k - 1);
      RunInv(cap, states, events, k - 1);
      TightStep(cap, states[k - 1], events[k - 1], states[k]);
    }
  }

  // ----- what an event keeps -----

  /** A publication of the history keeps the images of the view before it until it is acknowledged. */
  lemma PublishKeepsHeld(cap: nat, t: Table, present: string, view: set<string>, t': Table)
    requires Inv(cap, t) && Next(cap, t, Publish(present, view), t')
    ensures t.shown <= t'.images.Keys && view <= t'.images.Keys && !t'.settled
    ensures forall key :: key in t.shown || key in view ==> t'.images[key] == t.images[key]
  {
    PublishKeeps(cap, t, present, view);
  }

  /** An import and a restore show their image, with its size in the table. A restore makes it the reset baseline, and
      an import does so when it is asked to. */
  lemma PublicationsShow(cap: nat, t: Table, ev: Event, t': Table)
    requires Inv(cap, t) && Next(cap, t, ev, t') && (ev.PublishImport? || ev.Restore?)
    ensures var image := if ev.Restore? then ev.image else t.admission.value.image;
            && t'.present == image && image in t'.shown && image in t'.images
            && t'.images[image] == (if ev.Restore? then ev.size else t.admission.value.sizes[image])
            && t'.baseline == (if ev.Restore? || ev.baseline then image else t.baseline) && !t'.settled
  {
    if ev.Restore? {
      RestoreKeeps(cap, t, ev.image, ev.size);
    } else {
      var a := t.admission.value;
      ImportDisplaces(cap, t, ev.baseline, t', a.image);
      assert a.retained[a.trim..][a.head - a.trim] == a.image;
    }
  }

  /** The acknowledgment lets go of the images that only an older view had. */
  lemma AcknowledgeLetsGo(cap: nat, t: Table, t': Table, key: string)
    requires Inv(cap, t) && Next(cap, t, Acknowledge, t')
    ensures key in t'.images <==> key in t.images && (key in t.shown || Spared(t.(held := {}), key))
  {
  }

  /** No event but an import or a restore of an image changes its size or brings it in. */
  lemma SizesStay(cap: nat, t: Table, ev: Event, t': Table, key: string)
    requires Inv(cap, t) && Next(cap, t, ev, t') && key in t'.images
    requires !(ev.PublishImport? && t.admission.value.image == key) && !(ev.Restore? && ev.image == key)
    ensures key in t.images && t'.images[key] == t.images[key]
  {
  }
}
