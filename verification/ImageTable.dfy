/** The table of background image bytes of a tab: admission under a byte cap, pins and pruning. */
module ImageTables {
  import opened Basics

  /** The sizes of images by key. */
  type Sizes = map<string, nat>

  // ----- byte totals -----

  ghost function Total(keys: set<string>, sizes: Sizes): (total: nat)
    requires keys <= sizes.Keys
  {
    if keys == {} then 0
    else
      var key :| key in keys;
      sizes[key] + Total(keys - {key}, sizes)
  }

  /** The total does not depend on the order of the keys. */
  lemma {:induction false} TotalWithout(keys: set<string>, sizes: Sizes, key: string)
    requires keys <= sizes.Keys && key in keys
    ensures Total(keys, sizes) == sizes[key] + Total(keys - {key}, sizes)
  {
    var first :| first in keys && Total(keys, sizes) == sizes[first] + Total(keys - {first}, sizes);
    if first != key {
      TotalWithout(keys - {first}, sizes, key);
      TotalWithout(keys - {key}, sizes, first);
      assert keys - {first} - {key} == keys - {key} - {first};
    }
  }

  lemma {:induction false} TotalAgrees(keys: set<string>, sizes: Sizes, sizes': Sizes)
    requires keys <= sizes.Keys && keys <= sizes'.Keys && forall key :: key in keys ==> sizes[key] == sizes'[key]
    ensures Total(keys, sizes) == Total(keys, sizes')
  {
    if keys != {} {
      var key :| key in keys;
      TotalWithout(keys, sizes, key);
      TotalWithout(keys, sizes', key);
      TotalAgrees(keys - {key}, sizes, sizes');
    }
  }

  lemma {:induction false} TotalGrows(small: set<string>, large: set<string>, sizes: Sizes)
    requires small <= large <= sizes.Keys
    ensures Total(small, sizes) <= Total(large, sizes)
  {
    if forall key :: key in large ==> key in small {
      assert small == large;
    } else {
      var key :| key in large && key !in small;
      TotalWithout(large, sizes, key);
      TotalGrows(small, large - {key}, sizes);
    }
  }

  // ----- the admission plan -----

  /** The background key of each retained snapshot, oldest first. An empty key is no background. */
  type Retained = seq<string>

  function KeysOf(retained: Retained): set<string> {
    set key | key in retained && key != ""
  }

  /** What the table has to hold after the `trim` oldest snapshots are gone. */
  function KeysAfter(protected: set<string>, retained: Retained, image: string, trim: nat): set<string>
    requires trim <= |retained|
  {
    protected + KeysOf(retained[trim..]) + {image}
  }

  datatype PlanError = MissingImage | NoRoom

  datatype Plan = Planned(trim: nat, keys: set<string>) | Failed(error: PlanError)

  /** The least number of oldest snapshots, none of them the head, whose loss makes the image fit. */
  ghost predicate LeastTrim(protected: set<string>, retained: Retained, head: nat, image: string, sizes: Sizes,
                            cap: nat, trim: nat)
    requires KeysAfter(protected, retained, image, 0) <= sizes.Keys && head < |retained|
  {
    && trim <= head && Total(KeysAfter(protected, retained, image, trim), sizes) <= cap
    && forall fewer: nat :: fewer < trim ==> Total(KeysAfter(protected, retained, image, fewer), sizes) > cap
  }

  lemma KeysShrink(protected: set<string>, retained: Retained, image: string, trim: nat, more: nat)
    requires trim <= more <= |retained|
    ensures KeysAfter(protected, retained, image, more) <= KeysAfter(protected, retained, image, trim)
  {
    forall key | key in retained[more..] ensures key in retained[trim..] {
      var k :| 0 <= k < |retained| - more && retained[more..][k] == key;
      assert retained[trim..][k + more - trim] == key;
    }
  }

  /** A larger trim fits too: from the least one on, every trim fits. */
  lemma FitsFrom(protected: set<string>, retained: Retained, image: string, sizes: Sizes, cap: nat, trim: nat,
                 more: nat)
    requires KeysAfter(protected, retained, image, 0) <= sizes.Keys && trim <= more <= |retained|
    requires KeysAfter(protected, retained, image, trim) <= sizes.Keys &&
             Total(KeysAfter(protected, retained, image, trim), sizes) <= cap
    ensures KeysAfter(protected, retained, image, more) <= sizes.Keys &&
            Total(KeysAfter(protected, retained, image, more), sizes) <= cap
  {
    KeysShrink(protected, retained, image, trim, more);
    TotalGrows(KeysAfter(protected, retained, image, more), KeysAfter(protected, retained, image, trim), sizes);
  }

  ghost function CountIn(retained: Retained, key: string): nat {
    multiset(retained)[key]
  }

  ghost predicate Counts(references: map<string, nat>, retained: Retained) {
    forall key :: CountIn(retained, key) == if key == "" then CountIn(retained, "")
                                            else if key in references then references[key] else 0
  }

  /** The references of the snapshots by key. */
  method References(retained: Retained) returns (references: map<string, nat>)
    ensures Counts(references, retained)
  {
    references := map[];
    for k := 0 to |retained|
      invariant Counts(references, retained[..k])
    {
      assert retained[..k + 1] == retained[..k] + [retained[k]];
      if retained[k] != "" {
        references := references[retained[k] := (if retained[k] in references then references[retained[k]] else 0) + 1];
      }
    }
    assert retained[..|retained|] == retained;
  }

  /** The bytes of the images, or nothing when one is missing. */
  method ImageBytes(keys: set<string>, sizes: Sizes) returns (total: Option<nat>)
    ensures total.Some? <==> keys <= sizes.Keys
    ensures total.Some? ==> total.value == Total(keys, sizes)
  {
    var rest, sum := keys, 0;
    while rest != {}
      invariant rest <= keys && keys - rest <= sizes.Keys && sum == Total(keys - rest, sizes)
      decreases |rest|
    {
      var key :| key in rest;
      if key !in sizes {
        return None;
      }
      assert keys - (rest - {key}) == (keys - rest) + {key};
      TotalWithout(keys - (rest - {key}), sizes, key);
      assert (keys - rest) + {key} - {key} == keys - rest;
      rest, sum := rest - {key}, sum + sizes[key];
    }
    assert keys - {} == keys;
    total := Some(sum);
  }

  /** The state of the trim loop: counts, keys and bytes of what `trim` leaves. */
  ghost predicate Trimming(protected: set<string>, retained: Retained, image: string, sizes: Sizes, trim: nat,
                           references: map<string, nat>, keys: set<string>, total: nat)
  {
    && trim <= |retained| && Counts(references, retained[trim..]) && keys == KeysAfter(protected, retained, image, trim)
    && keys <= sizes.Keys && total == Total(keys, sizes)
  }

  lemma Uncounted(references: map<string, nat>, retained: Retained)
    requires retained != [] && Counts(references, retained)
    ensures retained[0] == "" ==> Counts(references, retained[1..])
    ensures retained[0] != "" ==> (
      && retained[0] in references && references[retained[0]] > 0
      && Counts(references[retained[0] := references[retained[0]] - 1], retained[1..])
      && (references[retained[0]] == 1 <==> retained[0] !in retained[1..]))
  {
    var key := retained[0];
    assert retained == [key] + retained[1..];
    assert CountIn(retained, key) == 1 + CountIn(retained[1..], key);
    assert key in retained[1..] <==> CountIn(retained[1..], key) > 0;
  }

  lemma OneLess(protected: set<string>, retained: Retained, image: string, trim: nat)
    requires trim < |retained|
    ensures var key := retained[trim];
      KeysAfter(protected, retained, image, trim + 1) ==
        if key == "" || key in retained[trim + 1..] || key in protected || key == image then
          KeysAfter(protected, retained, image, trim)
        else KeysAfter(protected, retained, image, trim) - {key}
  {
    assert retained[trim..] == [retained[trim]] + retained[trim + 1..];
  }

  /** Drops the oldest snapshot from the counts, and its image from the keys when nothing else holds it. */
  lemma TrimStep(protected: set<string>, retained: Retained, image: string, sizes: Sizes, trim: nat,
                 references: map<string, nat>, keys: set<string>, total: nat)
    requires Trimming(protected, retained, image, sizes, trim, references, keys, total) && trim < |retained|
    ensures retained[trim] == "" ==> Trimming(protected, retained, image, sizes, trim + 1, references, keys, total)
    ensures retained[trim] != "" ==> (
      var key := retained[trim];
      key in references && references[key] > 0 &&
      var fewer := references[key := references[key] - 1];
      if references[key] == 1 && key !in protected && key != image
      then key in keys && total >= sizes[key] &&
        Trimming(protected, retained, image, sizes, trim + 1, fewer, keys - {key}, total - sizes[key])
      else Trimming(protected, retained, image, sizes, trim + 1, fewer, keys, total))
  {
    var key, left := retained[trim], retained[trim..];
    assert left[0] == key && left[1..] == retained[trim + 1..];
    Uncounted(references, left);
    OneLess(protected, retained, image, trim);
    if key != "" && references[key] == 1 && key !in protected && key != image {
      TotalWithout(keys, sizes, key);
    }
  }

  ghost predicate NoneFits(protected: set<string>, retained: Retained, image: string, sizes: Sizes, cap: nat,
                           bound: nat)
    requires bound <= |retained|
  {
    forall trim: nat :: trim < bound ==>
      KeysAfter(protected, retained, image, trim) <= sizes.Keys &&
        Total(KeysAfter(protected, retained, image, trim), sizes) > cap
  }

  /** Plans the least trim. `sizes` has the new image and the table. */
  method PlanImageAdmission(image: string, protected: set<string>, retained: Retained, head: nat, sizes: Sizes,
                            cap: nat)
    returns (plan: Plan)
    requires head < |retained| && image in sizes
    ensures plan == Failed(MissingImage) <==> !(KeysAfter(protected, retained, image, 0) <= sizes.Keys)
    ensures plan.Planned? ==>
      LeastTrim(protected, retained, head, image, sizes, cap, plan.trim) &&
        plan.keys == KeysAfter(protected, retained, image, plan.trim)
    ensures plan == Failed(NoRoom) ==> NoneFits(protected, retained, image, sizes, cap, head + 1)
  {
    var references := References(retained);
    assert retained[0..] == retained;
    var keys := KeysAfter(protected, retained, image, 0);
    var bytes := ImageBytes(keys, sizes);
    if bytes.None? {
      return Failed(MissingImage);
    }
    var total: nat, trim: nat := bytes.value, 0;
    while total > cap && trim != head
      invariant trim <= head && Trimming(protected, retained, image, sizes, trim, references, keys, total)
      invariant NoneFits(protected, retained, image, sizes, cap, trim)
    {
      TrimStep(protected, retained, image, sizes, trim, references, keys, total);
      var key := retained[trim];
      trim := trim + 1;
      if key != "" {
        var remaining := references[key] - 1;
        references := references[key := remaining];
        if remaining == 0 && key !in protected && key != image {
          keys, total := keys - {key}, total - sizes[key];
        }
      }
    }
    if total > cap {
      return Failed(NoRoom);
    }
    plan := Planned(trim, keys);
  }

  // ----- the table in a tab -----

  /** An image import between its plan and its publication. `sizes` is the table at the plan, with the image. */
  datatype Admission = Admission(image: string, present: string, protected: set<string>, retained: Retained, head: nat,
                                 sizes: Sizes, trim: nat, keys: set<string>)

  /** `shown` has the image keys of the published view. The page holds more keys until the view is acknowledged. */
  datatype Table = Table(
    images: Sizes, pins: map<string, nat>, present: string, baseline: string, shown: set<string>, held: set<string>,
    settled: bool, failed: bool, admission: Option<Admission>)

  /** The keys of unsettled writes, of the present draft and of the reset baseline. */
  function PinnedKeys(t: Table): set<string> {
    t.pins.Keys + {t.present, t.baseline} - {""}
  }

  function Only(images: Sizes, keys: set<string>): Sizes {
    map key | key in images && key in keys :: images[key]
  }

  function AfterPrune(t: Table): Table {
    if t.failed then t else t.(images := Only(t.images, t.held + PinnedKeys(t)))
  }

  function AfterPin(t: Table, key: string): Table {
    t.(pins := t.pins[key := (if key in t.pins then t.pins[key] else 0) + 1])
  }

  function AfterUnpin(t: Table, key: string): Table {
    AfterPrune(t.(pins := if key in t.pins && t.pins[key] > 1 then t.pins[key := t.pins[key] - 1] else t.pins - {key}))
  }

  /** The table when an image is installed: the view's images, the protected ones and the new one. */
  function Installed(images: Sizes, image: string, size: nat, view: set<string>, protected: set<string>): Sizes {
    Only(images, view + protected + {image})[image := size]
  }

  datatype Event =
    | Pin(key: string)
    | Unpin(key: string)
    | SetLoaded(key: string)
    | Preview(key: string)
    | Publish(present: string, view: set<string>)
    | Acknowledge
    | Fail
    | PlanImport(image: string, size: nat, retained: Retained, head: nat)
    | PublishImport(baseline: bool)
    | DropImport
    | Restore(image: string, size: nat)

  ghost predicate Fits(sizes: Sizes, keys: set<string>, cap: nat) {
    keys <= sizes.Keys && Total(keys, sizes) <= cap
  }

  ghost predicate Planning(cap: nat, t: Table, a: Admission, size: nat) {
    && a.image != "" && a.present == t.present && a.protected == PinnedKeys(t) && a.sizes == t.images[a.image := size]
    && a.head < |a.retained| && a.retained[a.head] == a.image && KeysOf(a.retained) <= t.shown + {a.image}
    && KeysAfter(a.protected, a.retained, a.image, 0) <= a.sizes.Keys
    && LeastTrim(a.protected, a.retained, a.head, a.image, a.sizes, cap, a.trim)
    && a.keys == KeysAfter(a.protected, a.retained, a.image, a.trim)
  }

  /** The page publishes an import only while the draft and the pinned keys are those of the plan. */
  predicate Current(t: Table, a: Admission) {
    t.present == a.present && PinnedKeys(t) == a.protected
  }

  function View(a: Admission): set<string>
    requires a.trim <= |a.retained|
  {
    KeysOf(a.retained[a.trim..])
  }

  /** The table with the image and the published view, before it is pruned. */
  function Imported(t: Table, a: Admission, size: nat, baseline: bool): Table
    requires a.trim <= |a.retained|
  {
    t.(images := Installed(t.images, a.image, size, View(a), a.protected), present := a.image,
       baseline := if baseline then a.image else t.baseline,
       shown := View(a), held := t.held + View(a), settled := false, admission := None)
  }

  function AfterImport(t: Table, a: Admission, size: nat, baseline: bool): Table
    requires a.trim <= |a.retained|
  {
    AfterPrune(Imported(t, a, size, baseline))
  }

  function AfterRestore(t: Table, image: string, size: nat): Table {
    AfterPrune(t.(images := Installed(t.images, image, size, {image}, PinnedKeys(t)), present := image,
                  baseline := image, shown := {image}, held := t.held + {image}, settled := false))
  }

  /** What each event does to the table. Actions of the history come one after the other. */
  ghost predicate Next(cap: nat, t: Table, ev: Event, t': Table) {
    match ev
    case Pin(key) => key != "" && key in t.images && t' == AfterPin(t, key)
    case Unpin(key) => key in t.pins && t' == AfterUnpin(t, key)
    case SetLoaded(key) => (key == "" || key in t.images) && t' == AfterPrune(t.(baseline := key))
    case Preview(key) => (key == "" || key in t.images) && t' == AfterPrune(t.(present := key))
    case Publish(present, view) =>
      && t.settled && !t.failed && t.admission.None? && view <= t.shown + {t.present, t.baseline} - {""}
      && (present == "" || present in view)
      && t' == AfterPrune(t.(present := present, shown := view, held := t.held + view, settled := false))
    case Acknowledge => !t.settled && !t.failed && t' == AfterPrune(t.(held := t.shown, settled := true))
    case Fail => t' == t.(failed := true)
    case PlanImport(image, size, retained, head) =>
      && t.settled && !t.failed && t.admission.None? && t'.admission.Some? && t' == t.(admission := t'.admission)
      && t'.admission.value.image == image && t'.admission.value.retained == retained && t'.admission.value.head == head
      && Planning(cap, t, t'.admission.value, size)
    case PublishImport(baseline) =>
      && !t.failed && t.admission.Some? && t.admission.value.trim <= |t.admission.value.retained|
      && t.admission.value.image in t.admission.value.sizes
      && Current(t, t.admission.value)
      && t' == AfterImport(t, t.admission.value, t.admission.value.sizes[t.admission.value.image], baseline)
    case DropImport => t' == t.(admission := None)
    case Restore(image, size) =>
      && t.settled && !t.failed && t.admission.None? && image != ""
      && Fits(t.images[image := size], PinnedKeys(t) + {image}, cap) && t' == AfterRestore(t, image, size)
  }

  // ----- what every step keeps -----

  /** The plan still describes the table: its keys fit, and the sizes did not change. */
  ghost predicate PlanHolds(cap: nat, t: Table, a: Admission) {
    && a.trim <= a.head < |a.retained| && a.retained[a.head] == a.image && a.image != "" && a.image in a.sizes
    && t.settled
    && a.keys == KeysAfter(a.protected, a.retained, a.image, a.trim) && Fits(a.sizes, a.keys, cap)
    && View(a) <= t.shown + {a.image}
    && forall key :: key in t.images && key in a.sizes && key != a.image ==> t.images[key] == a.sizes[key]
  }

  /** The table holds the image of every unsettled write, of the draft, of the baseline and of the published view,
      within the cap. */
  ghost predicate Inv(cap: nat, t: Table) {
    && PinnedKeys(t) <= t.images.Keys && t.shown <= t.images.Keys
    && Total(t.images.Keys, t.images) <= cap
    && (forall key :: key in t.pins ==> t.pins[key] > 0) && "" !in t.shown && "" !in t.pins
    && t.shown <= t.held && (t.settled ==> t.held == t.shown)
    && (t.admission.Some? ==> PlanHolds(cap, t, t.admission.value))
  }

  lemma OnlyFits(images: Sizes, keys: set<string>, cap: nat)
    requires Total(images.Keys, images) <= cap
    ensures Total(Only(images, keys).Keys, Only(images, keys)) <= cap
  {
    var only := Only(images, keys);
    TotalGrows(only.Keys, images.Keys, images);
    TotalAgrees(only.Keys, images, only);
  }

  /** Pruning keeps all that the invariant names. */
  lemma PruneKeeps(cap: nat, t: Table)
    requires Inv(cap, t)
    ensures Inv(cap, AfterPrune(t))
  {
    OnlyFits(t.images, t.held + PinnedKeys(t), cap);
  }

  /** The keys that the install step counts are those of the plan, so neither its check nor the check before it can
      fail. */
  lemma InstallFits(cap: nat, t: Table)
    requires Inv(cap, t) && t.admission.Some? && Current(t, t.admission.value)
    ensures var a := t.admission.value;
      a.keys == View(a) + a.protected + {a.image} && Fits(t.images[a.image := a.sizes[a.image]], a.keys, cap)
  {
    var a := t.admission.value;
    var sizes := t.images[a.image := a.sizes[a.image]];
    assert a.keys == View(a) + a.protected + {a.image};
    TotalAgrees(a.keys, a.sizes, sizes);
  }

  /** The installed table holds the counted keys and nothing else. */
  lemma InstalledFits(cap: nat, images: Sizes, image: string, size: nat, view: set<string>, protected: set<string>)
    requires Fits(images[image := size], view + protected + {image}, cap)
    ensures var installed := Installed(images, image, size, view, protected);
      installed.Keys == view + protected + {image} && Total(installed.Keys, installed) <= cap
  {
    var installed := Installed(images, image, size, view, protected);
    assert installed.Keys == view + protected + {image};
    TotalAgrees(installed.Keys, images[image := size], installed);
  }

  lemma ImportKeeps(cap: nat, t: Table, baseline: bool)
    requires Inv(cap, t) && !t.failed && t.admission.Some? && Current(t, t.admission.value)
    ensures Inv(cap, AfterImport(t, t.admission.value, t.admission.value.sizes[t.admission.value.image], baseline))
  {
    var a := t.admission.value;
    InstallFits(cap, t);
    InstalledFits(cap, t.images, a.image, a.sizes[a.image], View(a), a.protected);
    assert a.retained[a.trim..][a.head - a.trim] == a.image;
    PruneKeeps(cap, Imported(t, a, a.sizes[a.image], baseline));
  }

  lemma RestoreKeeps(cap: nat, t: Table, image: string, size: nat)
    requires Inv(cap, t) && t.admission.None? && image != "" &&
             Fits(t.images[image := size], PinnedKeys(t) + {image}, cap)
    ensures Inv(cap, AfterRestore(t, image, size))
  {
    assert {image} + PinnedKeys(t) + {image} == PinnedKeys(t) + {image};
    InstalledFits(cap, t.images, image, size, {image}, PinnedKeys(t));
    PruneKeeps(cap, t.(images := Installed(t.images, image, size, {image}, PinnedKeys(t)), present := image,
                       baseline := image, shown := {image}, held := t.held + {image}, settled := false));
  }

  /** The images of a published view are at hand, that of the baseline because it is pinned. */
  lemma PublishKeeps(cap: nat, t: Table, present: string, view: set<string>)
    requires Inv(cap, t) && t.admission.None? && (present == "" || present in view)
    requires view <= t.shown + {t.present, t.baseline} - {""}
    ensures Inv(cap, AfterPrune(t.(present := present, shown := view, held := t.held + view, settled := false)))
  {
    PruneKeeps(cap, t.(present := present, shown := view, held := t.held + view, settled := false));
  }

  lemma StepKeeps(cap: nat, t: Table, ev: Event, t': Table)
    requires Inv(cap, t) && Next(cap, t, ev, t')
    ensures Inv(cap, t')
  {
    match ev
    case Pin(key) =>
    case Unpin(key) =>
      PruneKeeps(cap, t.(pins := if t.pins[key] > 1 then t.pins[key := t.pins[key] - 1] else t.pins - {key}));
    case SetLoaded(key) => PruneKeeps(cap, t.(baseline := key));
    case Preview(key) => PruneKeeps(cap, t.(present := key));
    case Publish(present, view) => PublishKeeps(cap, t, present, view);
    case Acknowledge => PruneKeeps(cap, t.(held := t.shown, settled := true));
    case Fail =>
    case PlanImport(image, size, retained, head) =>
      PlanKeeps(cap, t, t'.admission.value, size);
    case PublishImport(baseline) => ImportKeeps(cap, t, baseline);
    case DropImport =>
    case Restore(image, size) => RestoreKeeps(cap, t, image, size);
  }

  lemma PlanKeeps(cap: nat, t: Table, a: Admission, size: nat)
    requires Inv(cap, t) && t.settled && Planning(cap, t, a, size)
    ensures PlanHolds(cap, t, a)
  {
    KeysShrink(a.protected, a.retained, a.image, 0, a.trim);
    assert KeysOf(a.retained[a.trim..]) <= KeysOf(a.retained);
  }

  /** At a plan no image of a retained snapshot is missing, so the plan fails only for want of room. */
  lemma NothingMissing(cap: nat, t: Table, image: string, size: nat, retained: Retained)
    requires Inv(cap, t) && KeysOf(retained) <= t.shown + {image}
    ensures KeysAfter(PinnedKeys(t), retained, image, 0) <= t.images[image := size].Keys
  {
    assert retained[0..] == retained;
  }

  /** Reset draft publishes the baseline's key, though its snapshots may all be trimmed. The pinned image is still
      there. */
  lemma ResetDraftKeeps(cap: nat, t: Table, view: set<string>, t': Table)
    requires Inv(cap, t) && t.baseline != "" && Next(cap, t, Publish(t.baseline, view), t')
    ensures t'.present == t.baseline && t.baseline in t'.images && t'.images[t.baseline] == t.images[t.baseline]
    ensures view <= t'.images.Keys && Inv(cap, t')
  {
    StepKeeps(cap, t, Publish(t.baseline, view), t');
  }

  /** Between actions a draft can always be reset, whatever the published view shows. */
  lemma ResetDraftEnabled(cap: nat, t: Table)
    requires Inv(cap, t) && t.settled && !t.failed && t.admission.None?
    ensures exists t' :: Next(cap, t, Publish(t.baseline, t.shown + {t.baseline} - {""}), t')
  {
    var view := t.shown + {t.baseline} - {""};
    var t' := AfterPrune(t.(present := t.baseline, shown := view, held := t.held + view, settled := false));
    assert Next(cap, t, Publish(t.baseline, view), t');
  }

  ghost predicate IsRun(cap: nat, states: seq<Table>, events: seq<Event>) {
    && |states| == |events| + 1 && states[0].images == map[] && states[0].pins == map[]
    && states[0].present == "" == states[0].baseline
    && states[0].shown == {} == states[0].held && states[0].settled && states[0].admission.None?
    && forall k :: 0 <= k < |events| ==> Next(cap, states[k], events[k], states[k + 1])
  }

  /** In every run the table holds what it must, and never more bytes than the cap. */
  lemma {:induction false} RunInv(cap: nat, states: seq<Table>, events: seq<Event>, k: nat)
    requires IsRun(cap, states, events) && k <= |events|
    ensures Inv(cap, states[k])
  {
    if k > 0 {
      RunInv(cap, states, events, k - 1);
      StepKeeps(cap, states[k - 1], events[k - 1], states[k]);
    }
  }

  /** A published import or a restored image is in the table, and every image that it displaced was neither pinned nor
      shown. */
  lemma ImportDisplaces(cap: nat, t: Table, baseline: bool, t': Table, key: string)
    requires Inv(cap, t) && Next(cap, t, PublishImport(baseline), t')
    ensures t.admission.value.image in t'.images &&
            t'.images[t.admission.value.image] == t.admission.value.sizes[t.admission.value.image]
    ensures key in t.images && key !in t'.images ==> key !in PinnedKeys(t') && key !in View(t.admission.value)
  {
    var a := t.admission.value;
    InstallFits(cap, t);
    InstalledFits(cap, t.images, a.image, a.sizes[a.image], View(a), a.protected);
    ImportKeeps(cap, t, baseline);
  }

  // ----- the object of the tab -----

  class BackgroundModel {
    const cap: nat
    var images: Sizes
    var pins: map<string, nat>
    var present: string
    var baseline: string
    var shown: set<string>
    var held: set<string>
    var settled: bool
    var failed: bool
    var admission: Option<Admission>

    constructor (cap: nat)
      ensures this.cap == cap && Inv(cap, Contents())
      ensures Contents() == Table(map[], map[], "", "", {}, {}, true, false, None)
    {
      this.cap := cap;
      images, pins, present, baseline, shown, held := map[], map[], "", "", {}, {};
      settled, failed, admission := true, false, None;
    }

    ghost function Contents(): Table
      reads this
    {
      Table(images, pins, present, baseline, shown, held, settled, failed, admission)
    }

    method Pinned() returns (keys: set<string>)
      ensures keys == PinnedKeys(Contents())
    {
      keys := pins.Keys + {present, baseline} - {""};
    }

    /** Deletes the images that are not in `keys`. */
    method Keep(keys: set<string>)
      modifies this`images
      ensures images == Only(old(images), keys)
    {
      var rest := images.Keys;
      ghost var before := images;
      while rest != {}
        invariant rest <= before.Keys
        invariant images == (map key | key in before && (key in rest || key in keys) :: before[key])
        decreases |rest|
      {
        var key :| key in rest;
        if key !in keys {
          images := images - {key};
        }
        rest := rest - {key};
      }
    }

    method Prune()
      modifies this`images
      ensures Contents() == AfterPrune(old(Contents()))
    {
      if !failed {
        var pinned := Pinned();
        Keep(held + pinned);
      }
    }

    method PinImage(key: string)
      modifies this`pins
      ensures Contents() == AfterPin(old(Contents()), key)
    {
      pins := pins[key := (if key in pins then pins[key] else 0) + 1];
    }

    method UnpinImage(key: string)
      modifies this`pins, this`images
      ensures Contents() == AfterUnpin(old(Contents()), key)
    {
      if key in pins && pins[key] > 1 {
        pins := pins[key := pins[key] - 1];
      } else {
        pins := pins - {key};
      }
      Prune();
    }

    /** Replaces the table by the view's images, the protected ones and the new one, unless they exceed the cap. */
    method InstallImage(image: string, size: nat, view: set<string>, protected: set<string>) returns (ok: bool)
      modifies this`images
      ensures ok <==> Fits(old(images)[image := size], view + protected + {image}, cap)
      ensures images == if ok then Installed(old(images), image, size, view, protected) else old(images)
    {
      var keys := view + protected + {image};
      var bytes := ImageBytes(keys, images[image := size]);
      ok := bytes.Some? && bytes.value <= cap;
      if ok {
        Keep(keys);
        images := images[image := size];
      }
    }

    /** Plans an import against a proposed view. */
    method PlanImport(image: string, size: nat, retained: Retained, head: nat) returns (ok: bool)
      requires Inv(cap, Contents()) && settled && !failed && admission.None? && image != ""
      requires head < |retained| && retained[head] == image && KeysOf(retained) <= shown + {image}
      modifies this`admission
      ensures ok ==> Next(cap, old(Contents()), Event.PlanImport(image, size, retained, head), Contents())
      ensures !ok ==> Contents() == old(Contents())
      ensures !ok ==> NoneFits(PinnedKeys(Contents()), retained, image, images[image := size], cap, head + 1)
    {
      NothingMissing(cap, Contents(), image, size, retained);
      var protected := Pinned();
      var sizes := images[image := size];
      var plan := PlanImageAdmission(image, protected, retained, head, sizes, cap);
      ok := plan.Planned?;
      if ok {
        admission := Some(Admission(image, present, protected, retained, head, sizes, plan.trim, plan.keys));
      } else {
        assert plan.error.NoRoom?;
        assert protected == PinnedKeys(Contents());
      }
    }

    /** Publishes the planned import if the draft and the pins are still those of the plan. */
    method PublishImport(baseline: bool) returns (ok: bool)
      requires Inv(cap, Contents()) && !failed && admission.Some?
      modifies this
      ensures ok <==> Current(old(Contents()), old(admission.value))
      ensures ok ==> Contents() == AfterImport(old(Contents()), old(admission.value),
                                               old(admission.value.sizes[admission.value.image]), baseline)
      ensures !ok ==> Contents() == old(Contents()).(admission := None)
    {
      var a := admission.value;
      var pinned := Pinned();
      ok := present == a.present && pinned == a.protected;
      if ok {
        InstallFits(cap, Contents());
        Accept(a, baseline);
      } else {
        admission := None;
      }
    }

    method Accept(a: Admission, baseline: bool)
      requires a.trim <= |a.retained| && a.image in a.sizes
      requires Fits(images[a.image := a.sizes[a.image]], View(a) + a.protected + {a.image}, cap)
      modifies this
      ensures Contents() == AfterImport(old(Contents()), a, a.sizes[a.image], baseline)
    {
      ghost var imported := Imported(Contents(), a, a.sizes[a.image], baseline);
      var view := View(a);
      var installed := InstallImage(a.image, a.sizes[a.image], view, a.protected);
      assert installed;
      present, shown, held, settled := a.image, view, held + view, false;
      if baseline {
        this.baseline := a.image;
      }
      admission := None;
      assert Contents() == imported;
      Prune();
    }
  }
}
