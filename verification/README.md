# A verified model of the flow exporter's long-lived state

The exporter reads NetFlow v9, IPFIX and sFlow datagrams, keeps templates,
sequence positions and sampling declarations for every device, aggregates the
decoded flows and publishes the largest of them. This project models the places
where state outlives a datagram, a counter wraps, or a fast path has to agree
with a simple rule, and proves that they do.

- **Templates and the two-pass IPFIX decode.** `Wire`, `Templates`,
  `IpfixTemplates`, `V9Templates`, `IpfixRecords` read the wire;
  `StoreModel`, `StoreInvariants`, `StoreTheorems`, `DomainStates`,
  `TemplateStores` are the store and its budgets; `IpfixMessages`,
  `IpfixDecoder`, `NetflowV9Decoder` decode whole datagrams; `MessageFraming`
  and `MessageRoundTrips` put a device's encoder in front of them, and the
  records decoded are the records sent. A set's
  announcements are one function of its bytes, folded once by the length check
  and once by the registering walk, and an agreement between the two folds is
  why the second walk needs no framing checks.
- **Counters and rates.** `Sequences` and `SampleCounters` relate every 32-bit
  reading to an unbounded history of the device's own counts. `SamplerTables`,
  `Corrections` and `OptionsRecords` say which declared rate a record is
  corrected by, `OptionsTheorems` what an options record declares told by the
  elements it carries. `Clocks` anchors uptime readings.
- **Aggregation and publication.** `AggregationTable` holds the lock regions of
  the table, `AddProtocol` interleaves them, `TopK` is the in-place selection,
  `EntryListing` the listing and `Scrapes` the two end to end.
- **VLANs and dispatch.** `Net`, `VlanTables` and `VlanMapping` are the prefix
  index and the file it is built from; `Sharding` is the dispatcher as a state
  machine.

Code that updates state in place is a class with those fields, or a method with
its loops, proved against a function of the old state; what is promised of that
function is proved beside it. The store's shared objects (a device's budget, a
sampler table, a sampler's reading) are named by cells, so that sharing one is
holding the same cell; a domain is lent to a `DomainState` object while its lock
is held and put back afterwards. Budgets are specified as sums over what is
held, never as counters.

Where the code and its own words differ, the code is modelled:

- The tolerance constant's comment says either reading of a difference shifts a
  pair alike. `Clocks.PairKeepsItsDuration` gives the exact condition and
  `Clocks.StraddlingPairIsWithheld` a pair that loses it.
- A plain declaration reaches the domain's rate before the table can refuse it,
  so the two can differ until the next sweep:
  `OptionsRecords.PlainRateAgrees` says exactly when, and
  `OptionsRecords.FullTableDisagrees` is a case.
- The interval and space of a sampling declaration are added in 32 bits:
  `OptionsRecords.PacketRateExact` says exactly when that is the rate declared,
  and `OptionsRecords.WrappedRateIsDropped` is a declaration lost to it.
- A late flow sample is told by comparing raw 32-bit pools, so one overtaken
  across the wrap of the pool becomes the base instead of being held:
  `SampleCounters.LateIsHeldExactly` says exactly when, and
  `SampleCounters.LateAcrossWrapRecounts` is a run that counts packets twice for
  it. `SampleCounters.SampleRunTelescopes` keeps account of what is counted twice.

## Model

| member | source | states |
|---|---|---|
| `IpfixTemplates.FramingAgrees` | internal/decoder/ipfix.go:290-354 | compiling a template's specifiers and skipping them step over the same bytes; compiling fails exactly where the template runs past the set or a specifier inside it has no width |
| `IpfixTemplates.ParseIpfixFieldSpecs` | internal/decoder/ipfix.go:290-332 | the specifier loop reads the fields, minimum length, variable flag and next offset of the specification, enterprise numbers included |
| `IpfixTemplates.SkipIpfixFieldSpecs` | internal/decoder/ipfix.go:338-354 | the skipping loop ends where the specifiers, read as frames alone, end |
| `IpfixTemplates.ParseIpfixTemplates` | internal/decoder/ipfix.go:198-228 | a template set announces what stands at the offsets found by skipping alone, accepted or refused |
| `IpfixTemplates.ParseIpfixOptionsTemplates` | internal/decoder/ipfix.go:233-284 | the same for an options template set, whose withdrawals are two bytes shorter than its other heads |
| `IpfixTemplates.AnnouncementsIgnoreLimits` | internal/decoder/ipfix.go:198-284 | under any two field limits a set announces the same ids in the same order, and what both accept they compile alike |
| `IpfixTemplates.AnnouncedCompile` | internal/decoder/ipfix.go:198-332 | every compiled announcement has a data-set id, at most the limit's fields, the sum of its widths as record length and the variable flag exactly when a field is variable |
| `IpfixTemplates.TemplateSetRoundTrip` | internal/decoder/ipfix.go:198-332 | a template or options template set written by a device (RFC 7011 sections 3.4.1 and 3.4.2) reads back template by template, field by field, up to padding shorter than a head |
| `V9Templates.ReadFields` | internal/decoder/netflow9.go:180-210 | the specifier loop accepts exactly when no width outside the leading scopes is zero, and then yields every field |
| `V9Templates.FixedRecordLen` | internal/decoder/netflow9.go:245-251 | the loop's total is the sum of the widths as declared |
| `V9Templates.ParseV9Templates` | internal/decoder/netflow9.go:158-175 | a template flowset announces what stands at the heads the framing alone determines |
| `V9Templates.ParseV9OptionsTemplates` | internal/decoder/netflow9.go:255-310 | the same for an options template flowset, with byte lengths for counts and zero widths read as bare scopes |
| `V9Templates.AnnouncementsIgnoreLimits` | internal/decoder/netflow9.go:158-310 | refusing an announcement never moves a later one, whatever the field limit |
| `V9Templates.WalkStopsOnlyAtBreaks` | internal/decoder/netflow9.go:158-310 | the walk steps from each head to the end of its specifiers and stops early only at a head that declares no field or splits a specifier |
| `V9Templates.AnnouncedCompile` | internal/decoder/netflow9.go:158-310 | every compiled v9 announcement is fixed-length, with zero widths in the scope prefix of options templates only |
| `V9Templates.TemplateSetRoundTrip` | internal/decoder/netflow9.go:158-310 | a template or options template flowset written by a device reads back template by template, fields and scopes as written, bare scopes included |
| `Templates.FittingIsWellFormed` | internal/decoder/netflow9.go:216-251 | a template either protocol compiles satisfies every demand of the store once its record length is 1 to 65531; a v9 width of 65535 is never taken for a variable field |
| `Templates.SameLayoutMeansSame` | internal/decoder/templates.go:877-879 | between templates either protocol may store, having the same layout is being the same template |
| `Wire.ReadsAreBigEndian` | internal/decoder/fields.go:480-499 | the two- and four-byte reads are the big-endian numbers their bytes spell |
| `Wire.BigEndianReadsBack` | internal/decoder/fields.go:480-499 | a number written in four bytes, or two, is the number read |
| `IpfixRecords.WalkAdvances` | internal/decoder/ipfix.go:452-482 | a field walk that succeeds yields one value a field, consumes at least the template's minimum length and stays inside the set |
| `IpfixRecords.HoldsRecords` | internal/decoder/ipfix.go:153-169 | the shortcut for fixed templates and the walk for variable ones both answer exactly whether the set is one or more whole records and padding |
| `IpfixRecords.DecodeRecords` | internal/decoder/ipfix.go:359-426 | the record loop yields the records of the specification and reports whether the walk reached the padding |
| `IpfixRecords.FixedRecordsHold` | internal/decoder/ipfix.go:153-169 | records of fixed fields never run past a set, and there are length divided by record length of them |
| `IpfixRecords.DataSetRoundTrip` | internal/decoder/ipfix.go:359-482 | records written under a template, padded by less than a record (RFC 7011 section 3.3.1), are the records read, short and long variable lengths included |
| `Sequences.PacketReading` | internal/decoder/templates.go:988-1002 | against the true number of the highest packet seen, a packet in reach moves the 32-bit position exactly when it is ahead, and counts the numbers jumped |
| `Sequences.PacketRunFollows` | internal/decoder/templates.go:966-1003 | over runs of any length and any number of wraps, every session reads the highest true number it reached, and the domain's losses are highest minus first minus advancing arrivals summed over its sessions |
| `Sequences.PacketRestart` | internal/decoder/templates.go:988-1002 | past either window the position rebases and nothing is counted |
| `Sequences.RecordReading` | internal/decoder/templates.go:1109-1133 | one message moves a session exactly as its true account says: held late, taken with the gap before it, or rebased |
| `Sequences.RecordRunConserves` | internal/decoder/templates.go:1088-1134 | over any run, on every session expected position minus the segment's first is records taken plus records skipped, and the domain's counter is everything skipped, modulo 2^64 |
| `Sequences.FifthLateRebases` | internal/decoder/templates.go:1118-1133 | up to four late messages in a row are held whole; the fifth rebases and counts nothing |
| `Sequences.SweepFreesTheSilent` | internal/decoder/templates.go:577-602 | after any run in either numbering a sweep leaves exactly the ports whose last tracked message is no older than the cutoff |
| `Sequences.RefusedExactly` | internal/decoder/templates.go:577-592 | a message goes untracked exactly where its port is new beside sixteen sessions; any other opens or finds its session and stamps it |
| `SampleCounters.DomainSamplers.TrackSamplerLocked` | internal/decoder/templates.go:1011-1067 | a sample moves the readings and totals as an always-pruning step on them would, refusals included, with the recent-sampler cache always the map's own entry |
| `SampleCounters.DomainSamplers.AdmitLocked` | internal/decoder/templates.go:1021-1041 | a new sampler is refused exactly when the map is full of samplers inside the TTL, though the prune is skipped behind the lower bound |
| `SampleCounters.DomainSamplers.AdvanceLocked` | internal/decoder/templates.go:1045-1066 | writing through the cached entry rewrites that one sampler's reading and adds exactly the two guarded differences |
| `SampleCounters.DomainSamplers.PruneIdleSamplersLocked` | internal/decoder/templates.go:1071-1086 | exactly the samplers idle past the cutoff go, the bound stays a lower bound and the cache is cleared |
| `SampleCounters.NothingIdle` | internal/decoder/templates.go:1023-1028 | while the lower bound is inside the TTL a prune would free nothing |
| `SampleCounters.RefusedExactly` | internal/decoder/templates.go:1021-1041 | a sampler is refused exactly where it is new beside 4096 of which none has been idle past the TTL |
| `SampleCounters.LateIsHeldExactly` | internal/decoder/templates.go:1045-1050 | a sample from behind the one held is told as late if and only if fewer than four preceded it and the pool did not wrap between the two |
| `SampleCounters.LateSampleRebasesExactly` | internal/decoder/templates.go:1045-1066 | a late sample alters no reading and no total exactly under that condition; otherwise it becomes the base and adds nothing itself |
| `SampleCounters.LateAcrossWrapRecounts` | internal/decoder/templates.go:1045-1066 | four samples of which the third is overtaken across the wrap of the pool: 120 packets pass between first and last, 135 are counted |
| `SampleCounters.VerdictReads` | internal/decoder/templates.go:1045-1053 | the wire tells of every sample in reach what it truly is: late and held, next in order, or one the counters do not span |
| `SampleCounters.SampleRunTelescopes` | internal/decoder/templates.go:1005-1067 | over runs of any length with samplers coming, idling out, returning and restarting, each total is, modulo 2^64, the sum over every life of every sampler of its last reading less its first, less what was skipped and plus what a late sample stepped back over, each counter on its own |
| `SampleCounters.SmoothRunIsExact` | internal/decoder/templates.go:1005-1067 | where every sample is the next in order within both windows, or late and held, nothing is skipped or counted twice |
| `SampleCounters.SteadySamplerTelescopes` | internal/decoder/templates.go:1005-1067 | one sampler read in order at one rate adds its true last reading minus its first, across any wraps of the 32-bit counter |
| `SamplerTables.SamplerTable.Declare` | internal/decoder/templates.go:201-233 | the declaration is taken exactly when held or there is room, every other entry stays, and the inherited rate is again the sole one |
| `SamplerTables.SamplerTable.DeclareScoped` | internal/decoder/templates.go:236-251 | a scoped declaration is taken under the same bound and never moves the inherited rate |
| `SamplerTables.SamplerTable.Expire` | internal/decoder/templates.go:272-294 | exactly the declarations announced since the cutoff stay, and the inherited rate is their sole one |
| `SamplerTables.SamplerTable.DeclaredRate` | internal/decoder/templates.go:304-326 | the record's own domain answers first; then, device-wide, the one rate its domains agree on, or zero where they differ, in any map order |
| `SamplerTables.SoleRate` | internal/decoder/templates.go:349-364 | in any map order the walk finds the one rate all named and plain declarations share, or 0 |
| `SamplerTables.SoleIsUnique` | internal/decoder/templates.go:346-364 | a set of rates has one sole rate, so no walking order shows in it |
| `SamplerTables.DeclaredExactly` | internal/decoder/templates.go:201-212 | a table takes a declaration exactly where holding it leaves it within its bound |
| `Corrections.CorrectionIsLicensed` | internal/decoder/templates.go:500-547 | a non-zero correction was declared for what the record names, its template, interface or domain, or is the device's sole rate, and nothing is then owed |
| `Corrections.CorrectionIsUnique` | internal/decoder/templates.go:304-364 | the precedence settles one answer, so no map order can change it |
| `Corrections.DisagreementIsOwed` | internal/decoder/templates.go:304-326 | a samplerId two other domains declare differently corrects nothing and its records are owed a rate |
| `Corrections.ScopesApart` | internal/decoder/templates.go:147-166 | no two scopes share a declaration: each kind is told apart by domain and number, a template by its session too, and no kind is taken for another |
| `Corrections.SelectorStaysInItsDomain` | internal/decoder/templates.go:500-513 | a selectorId takes nothing from what other domains declare under it |
| `DomainStates.DomainSampling.InForceRate` | internal/decoder/templates.go:531-547 | the domain's own rate, else one scoped to it, else the sole rate of the device |
| `DomainStates.DomainSampling.CorrectionFor` | internal/decoder/templates.go:500-513 | the correction of a record naming a sampler or selector is the one the precedence gives, undeclared sampler 0 included |
| `DomainStates.DomainSampling.ScopedCorrection` | internal/decoder/templates.go:518-527 | a rate scoped to the record's template, else to its interface when it has one |
| `DomainStates.DomainSampling.RateForRecord` | internal/decoder/fields.go:171-182 | a record is given the precedence's rate by whichever element names its selection process, and counted unresolved exactly when one is owed |
| `DomainStates.DomainSampling.StampRate` | internal/decoder/fields.go:126-132 | a record that carried a rate keeps it and is never counted; another is stamped as above |
| `DomainStates.DomainState.AddLocked` | internal/decoder/templates.go:854-873 | accepts, refuses and leaves the domain exactly as pruning on every announcement would, and charges the device what the domain's fields moved |
| `DomainStates.DomainState.FitsLocked` | internal/decoder/templates.go:884-890 | the template bound and the device's field bound, counting what the id already holds |
| `DomainStates.DomainState.DropLocked` | internal/decoder/templates.go:940-945 | one template goes and its fields are returned to domain and device alike |
| `DomainStates.DomainState.PruneExpiredLocked` | internal/decoder/templates.go:910-922 | exactly the templates past the TTL go, returned to domain and device alike, and the bound is again a lower bound |
| `DomainStates.DomainState.SessionLocked` | internal/decoder/templates.go:577-592 | a session is found, opened or refused at the bound, and stamped |
| `DomainStates.DomainState.TrackSequence` | internal/decoder/templates.go:971-1003 | the method moves the positions as the packet specification does |
| `DomainStates.DomainState.TrackRecordSequence` | internal/decoder/templates.go:1097-1134 | the method moves the positions as the record specification does |
| `DomainStates.DomainState.PruneIdleSessionsLocked` | internal/decoder/templates.go:596-602 | exactly the sessions idle since before the cutoff go |
| `StoreModel.AnnouncedLookups` | internal/decoder/templates.go:838-873 | whichever way an announcement goes, its id then holds what was announced (exactly when it is taken) or nothing, and every other id what it held |
| `StoreModel.AnnouncedFits` | internal/decoder/templates.go:845-890 | however an announcement ends, the domain stays within 8192 templates and its device within 65536 fields |
| `StoreModel.DuesPut` | internal/decoder/templates.go:698-719 | writing one domain moves what its own device owes by the domain opened and the fields gained, and no other device's |
| `StoreModel.DuesDrop` | internal/decoder/templates.go:743-769 | evicting a domain gives its device back what it was charged and leaves a device with no domain owing nothing |
| `StoreInvariants.OpenKeeps` | internal/decoder/templates.go:671-720 | opening a domain the budgets admit keeps budgets, tables and bounds sound |
| `StoreInvariants.PutKeeps` | internal/decoder/templates.go:845-945 | rewriting one live domain, its device charged the difference, keeps the store sound |
| `StoreInvariants.EvictKeeps` | internal/decoder/templates.go:743-769 | evicting one domain keeps every budget equal to what its device owes, and frees a budget with its last domain |
| `StoreInvariants.TablePutKeeps` | internal/decoder/templates.go:795-815 | rewriting the table a live domain holds keeps the store sound |
| `StoreInvariants.SweptOwned` | internal/decoder/templates.go:776-791 | after a sweep every declaration left belongs to a domain left |
| `StoreInvariants.SweptLive` | internal/decoder/templates.go:776-791 | after a sweep a table exists exactly while a live domain of its device and protocol does |
| `StoreTheorems.DeviceBudget` | internal/decoder/templates.go:671-769 | in every sound store a device has a budget exactly while it has a live domain, the budget reads its live domains and the fields all their templates hold, and the bounds of 256 domains, 65536 fields and 8192 templates hold |
| `StoreTheorems.SiblingsShareOneTable` | internal/decoder/templates.go:698-719 | two live domains share a sampler table exactly when they are of one device and one protocol |
| `StoreTheorems.AbsentDeclaresNothing` | internal/decoder/templates.go:743-791 | no declaration outlives its domain, so a re-created domain starts with none |
| `StoreTheorems.SweepRestatesRates` | internal/decoder/templates.go:724-791 | a sweep leaves exactly the domains seen since the cutoff, each keeping its plain entry's rate and its unexpired templates |
| `StoreTheorems.FitsExactly` | internal/decoder/templates.go:884-890 | an announcement fits exactly where holding it in place of what its id held breaks neither bound |
| `StoreTheorems.TakenExactly` | internal/decoder/templates.go:854-873 | an announcement is taken exactly where it fits beside the unexpired templates, so no refusal was avoidable |
| `StoreTheorems.RefreshIsTaken` | internal/decoder/templates.go:845-890 | in a sound store repeating a held layout, or announcing one no longer under its id, is taken however full the bounds are |
| `StoreTheorems.AdmitsExactly` | internal/decoder/templates.go:671-720 | a domain is admitted exactly where opening it breaks no bound |
| `TemplateStores.TemplateStore.constructor` | internal/decoder/templates.go:655-664 | a new store is empty and sound |
| `TemplateStores.TemplateStore.Domain` | internal/decoder/templates.go:671-720 | the key's domain is stamped, opened where the device's budgets leave room, or refused and counted with the store unchanged; the store stays sound |
| `TemplateStores.TemplateStore.Lookup` | internal/decoder/templates.go:950-964 | the template held unexpired under the session's id, well formed for its protocol, or none; the domain is stamped |
| `TemplateStores.TemplateStore.Add` | internal/decoder/templates.go:845-873 | the domain is seen and then holds what the announcement leaves it under the device's whole charge; the store stays sound |
| `TemplateStores.TemplateStore.Withdraw` | internal/decoder/templates.go:926-936 | one id drops its layout, its fields returned, and no domain is opened for it |
| `TemplateStores.TemplateStore.TrackSequence` | internal/decoder/templates.go:971-1003 | one domain's packet positions move and nothing else in the store does |
| `TemplateStores.TemplateStore.TrackRecordSequence` | internal/decoder/templates.go:1097-1134 | one domain's record positions move and nothing else in the store does |
| `TemplateStores.TemplateStore.DeclareSampler` | internal/decoder/templates.go:807-815 | the declaration lands on the table the domain shares, stamped with the domain's last datagram; a refusal is counted and changes nothing |
| `TemplateStores.TemplateStore.DeclareScoped` | internal/decoder/templates.go:795-803 | the same for a scoped declaration |
| `TemplateStores.TemplateStore.EvictIdleDomains` | internal/decoder/templates.go:743-791 | one step under the store lock: the idle domains go with what their devices were charged, declarations expire, rates are restated and tables nobody holds are freed; the store stays sound |
| `TemplateStores.TemplateStore.SweepDomains` | internal/decoder/templates.go:724-739 | the eviction, then every surviving domain freed of idle sessions and expired templates; the store stays sound |
| `OptionsRecords.ReadOptions` | internal/decoder/options.go:75-140 | the fields of an options record, application identifier and strings among them, are folded in order, its leading scopes read as scopes too |
| `OptionsRecords.PacketRateExact` | internal/decoder/options.go:196-211 | interval and space give the declared rate exactly where their 32-bit sum does not wrap |
| `OptionsRecords.Commit` | internal/decoder/options.go:147-180 | a declaration lands on the sampler it names, else its first scope, else its own domain, no other table moves, and the application strings are handed on under the identifier they came with |
| `OptionsRecords.WrappedRateIsDropped` | internal/decoder/options.go:196-203 | interval 1 with space 2^32-1 sums to nothing, and the declaration is dropped |
| `OptionsRecords.FullTableDisagrees` | internal/decoder/options.go:163-166 | with 256 other declarations held, the domain takes a plain rate its table refuses |
| `OptionsRecords.PlainRateAgrees` | internal/decoder/options.go:163-166 | after a plain declaration the domain's rate equals the table's exactly where the table held one or had room |
| `OptionsTheorems.MeantIsDeclared` | internal/decoder/options.go:196-211 | a record carrying an interval and a space, else a size and a population, else a random or a plain interval, anywhere among its fields, declares that rate; of an element carried twice the last counts |
| `OptionsTheorems.TieIsTaken` | internal/decoder/options.go:113-193 | the declaration is tied to the sampler or selector the record names, else to the template, the interface or the other domain it is scoped by under its protocol's numbering, else to its own domain |
| `OptionsTheorems.RecordDeclaresWhatWasMeant` | internal/decoder/options.go:75-211 | the rate meant stands on the target meant, dated by its datagram, exactly where that target is held or fewer than 256 declarations are; every other declaration stays |
| `OptionsTheorems.SilenceDeclaresNothing` | internal/decoder/options.go:196-211 | a record with none of the sampling elements leaves every declaration as it was |
| `OptionsTheorems.WrittenSays` | internal/decoder/fields.go:480-527 | an element written in four bytes, or two, where nothing later repeats it, says the number written |
| `OptionsTheorems.WidthsRead` | internal/decoder/fields.go:480-527 | a number reads as itself in every width up to eight bytes that holds it, and in no wider one |
| `OptionsTheorems.ApplicationIDReadsBack` | internal/decoder/fields.go:534-550 | an application identifier reads back through any selector width within nine bytes in all, and through no wider one |
| `OptionsTheorems.NamesAreHanded` | internal/decoder/options.go:147-180 | a record naming an application hands on exactly the name and the category it carries, under its identifier |
| `IpfixMessages.AnnouncementAgrees` | internal/decoder/ipfix.go:84-148 | one announcement, taken, refused or withdrawn, leaves no id holding a layout the length check did not see |
| `IpfixMessages.JudgedSetsDecode` | internal/decoder/ipfix.go:52-70 | so a data set the check passed holds whole records of whatever template the applying walk looks up |
| `IpfixMessages.EffectIsWellFormed` | internal/decoder/ipfix.go:92-102 | every layout an announcement puts in force meets the store's demands |
| `IpfixMessages.RedefinedIsOther` | internal/decoder/ipfix.go:140-147 | an id is redefined exactly where it was last announced as anything but the template its session sees |
| `IpfixMessages.WithdrawnAgrees` | internal/decoder/ipfix.go:140-148 | after a rejected message no announced id is seen with anything but its last announcement, or nothing |
| `IpfixDecoder.RegisterTemplate` | internal/decoder/netflow9.go:216-234 | an unusable announcement withdraws its id; another is taken exactly when the budgets take it; the domain's templates are then exactly those |
| `IpfixDecoder.RegisterAll` | internal/decoder/ipfix.go:198-284 | a set's announcements leave the domain holding exactly what taking them in order under the device's charge comes to |
| `IpfixDecoder.JudgeMessage` | internal/decoder/ipfix.go:92-138 | the verdict is section 9.1 of RFC 7011 on the whole message, and the announcements gathered are all those ahead of a framing break |
| `IpfixDecoder.WithdrawRedefined` | internal/decoder/ipfix.go:140-147 | exactly the unexpired ids redefined with no layout or another one are withdrawn, in any map order |
| `IpfixDecoder.CheckIpfixLengths` | internal/decoder/ipfix.go:92-148 | accepted exactly when every length agrees with what encloses it; a refusal takes only the redefined ids away |
| `IpfixDecoder.DecodeDataSet` | internal/decoder/ipfix.go:359-392 | a set that passed is decoded whole by the template then stored, and never abandoned on a record |
| `IpfixDecoder.CommitAll` | internal/decoder/ipfix.go:380-392 | the options records of a set leave the domain declaring exactly what committing them in order comes to |
| `IpfixDecoder.SetComesNext` | internal/decoder/ipfix.go:62-70 | in a message framed whole the walk's next slice is in range, at least four bytes, and the set the check framed |
| `IpfixDecoder.StoredOneMore` | internal/decoder/ipfix.go:173-191 | one more set: it met the template then stored under its id, and left what its announcements come to |
| `IpfixDecoder.ApplySet` | internal/decoder/ipfix.go:173-191 | one set of a message that passed, routed by its id: what it registers, declares, hands on, yields and reports is determined, and nothing is malformed |
| `IpfixDecoder.ApplyMessage` | internal/decoder/ipfix.go:60-76 | the walk with no framing checks of its own stays in range, meets only templates the check judged, applies every set in order and reports each in order |
| `IpfixDecoder.DecodeIpfix` | internal/decoder/ipfix.go:31-83 | a rejected message yields no record, declaration or sequence move and withdraws only what it redefined; an accepted one yields its records, templates, reports and one sequence move as specified, and the declarations its options records make of those held before the call |
| `NetflowV9Decoder.V9TemplateDivides` | internal/decoder/netflow9.go:318-337 | a stored v9 template has a positive record length and no variable field, so the guard against one never fires and the division is by no zero |
| `NetflowV9Decoder.SplitRecord` | internal/decoder/netflow9.go:373-397 | slicing a record by its widths is walking its fields |
| `NetflowV9Decoder.SplitSet` | internal/decoder/netflow9.go:337-351 | dividing a set by the record length finds exactly its whole records, in range |
| `NetflowV9Decoder.ApplyFlowSet` | internal/decoder/netflow9.go:135-152 | one flowset routed by its id: what it registers, declares, hands on, yields and reports is determined, malformed exactly when shorter than one record |
| `NetflowV9Decoder.ApplyDatagram` | internal/decoder/netflow9.go:112-132 | flowsets take effect as met and are reported in order; a length that breaks the framing ends the walk with what came before in effect |
| `NetflowV9Decoder.DecodeNetFlowV9` | internal/decoder/netflow9.go:91-132 | the domain is found and its sequence moved before anything is read; records, templates, reports and declarations are those of the flowsets framed, starting from what was declared before the call |
| `MessageFraming.FramingReadsBack` | internal/decoder/ipfix.go:92-138 | behind a header of any length the walk finds exactly the sets written, whole up to three bytes of trailing, and not whole before a set of broken length |
| `MessageFraming.MessageReadsBack` | internal/decoder/ipfix.go:31-62 | an IPFIX message is read as written whatever follows it in its datagram: extent, domain, sequence number and sets |
| `MessageFraming.CutMessageIsRefused` | internal/decoder/ipfix.go:34-41 | a message cut short anywhere is refused by its header |
| `MessageFraming.DatagramReadsBack` | internal/decoder/netflow9.go:91-132 | a v9 datagram is read as written: source, sequence number and the flowsets ahead of a break |
| `MessageRoundTrips.FittingTakesEffect` | internal/decoder/netflow9.go:216-234 | an announced layout takes effect exactly where its record is 1 to 65531 bytes long |
| `MessageRoundTrips.WrittenIsAccepted` | internal/decoder/ipfix.go:92-138 | a message whose data sets hold records of the layouts last announced passes the length check, whatever sets in whatever order it is made of |
| `MessageRoundTrips.StoredInForce` | internal/decoder/netflow9.go:216-234 | over a whole message of either protocol, where no announcement is reported refused, the session finds after every set exactly the layouts last announced by then |
| `MessageRoundTrips.AllMetAsSent` | internal/decoder/ipfix.go:359-375 | every data set then meets the layout it was sent under |
| `MessageRoundTrips.TakenAsSent` | internal/decoder/ipfix.go:359-426 | the records taken of an IPFIX message are the records sent, in order, and as many are counted |
| `MessageRoundTrips.V9TakenAsSent` | internal/decoder/netflow9.go:318-397 | the same of a v9 datagram |
| `MessageRoundTrips.RoomRefusesNothing` | internal/decoder/templates.go:854-890 | with room for the templates and fields a message announces none of them is refused |
| `MessageRoundTrips.UnrefusedIsUnderstood` | internal/decoder/ipfix.go:60-83 | a message of which no template is reported refused reports nothing at all, is read under the layouts it was sent under, and leaves its last announcements in force |
| `MessageRoundTrips.DecodeWrittenMessage` | internal/decoder/ipfix.go:31-83 | end to end: a message announcing templates and sending records under them yields exactly those records and moves the sequence by their number, unless a template was reported refused, which with room for all of them none is |
| `MessageRoundTrips.DecodeWrittenDatagram` | internal/decoder/netflow9.go:91-132 | the same of a v9 datagram, broken off or not |
| `Clocks.AgeReadIsTheWindowed` | internal/decoder/clock.go:53-59 | every modular difference is read as the one age of the window a whole number of periods away |
| `Clocks.AnchorExactInWindow` | internal/decoder/clock.go:48-59 | an anchored instant is the true one if and only if -3,600,000 ms < age <= 2^32 - 3,600,000 ms |
| `Clocks.DerivedUptime` | internal/decoder/clock.go:39-46 | an uptime derived from the boot instant reads as the counter would after any number of wraps, part milliseconds dropped whichever way the span runs |
| `Clocks.FarBootSaturates` | internal/decoder/clock.go:35-46 | a boot instant further off than a duration reaches gives the longest uptime there is, either way |
| `Clocks.AnchorOnBootInstant` | internal/decoder/clock.go:35-59 | where the header states no uptime the window is the same, and inside it the instant is boot plus the device's own uptime |
| `Clocks.PairKeepsItsDuration` | internal/decoder/clock.go:16-24 | a pair keeps its true duration if and only if both ages fall in one period, which the comment there promises of any pair |
| `Clocks.StraddlingPairIsWithheld` | internal/decoder/clock.go:16-24 | a pair one millisecond long straddling the tolerance is read as inverted, at any instant |
| `Clocks.PairWithheldExactly` | internal/decoder/clock.go:61-76 | within one period a pair is withheld exactly when the flow truly ended before it began |
| `Clocks.FlowClockIsTheDevices` | internal/decoder/fields.go:148-165 | a record with the uptime pair and the boot instant, inside the window, gets the device's own times or nothing of a flow that ran backwards |
| `Clocks.LoneElementsDisplaceNothing` | internal/decoder/fields.go:148-165 | short of a complete absolute pair neither absolute instant has a say, and a header's uptime is never displaced |
| `Clocks.AbsolutePairAsWritten` | internal/decoder/fields.go:148-165 | a record giving both absolute instants has them for its times, withheld where the end precedes the start, whatever the clock and the uptimes say |
| `Clocks.ResolveFlowClock` | internal/decoder/fields.go:137-146 | the pair is counted as anchored, and as inverted exactly when withheld |
| `AggregationTable.Table.HitLocked` | internal/aggregator/table.go:117-123 | under the read lock a present key takes the reading, and an absent one changes nothing |
| `AggregationTable.Table.Insert` | internal/aggregator/table.go:139-156 | under the write lock the key is looked for again, then seeded with its reading and a fresh birth, or refused at the bound |
| `AggregationTable.Table.Add` | internal/aggregator/table.go:117-133 | alone, add reaches an entry exactly when the key is held or there is room, and the overflow otherwise |
| `AggregationTable.Table.Sweep` | internal/aggregator/table.go:169-190 | exactly the idle entries go, counted, and the totals returned are the sums of what they carried, no flag set |
| `AggregationTable.Table.Snapshot` | internal/aggregator/table.go:201-210 | every entry is listed once with its own birth and totals, in some order, and nothing else is |
| `AggregationTable.ReadIsTheEntry` | internal/aggregator/table.go:69-77 | what is published of an entry is its three counters and the negation of its two latches |
| `AddProtocol.CarriesOneMore` | internal/aggregator/table.go:55-77 | one reading more keeps an entry exactly what its readings come to, latches included |
| `AddProtocol.CreditConserves` | internal/aggregator/table.go:117-156 | a call's reading moves from in flight to its entry and nowhere else |
| `AddProtocol.SweepReports` | internal/aggregator/table.go:169-190 | the totals sweeps report are those of every reading evicted, modulo 2^64 |
| `AddProtocol.CreditBirths` | internal/aggregator/table.go:139-156 | births stay apart until the 64-bit stamp itself wraps |
| `AddProtocol.EveryRunHolds` | internal/aggregator/table.go:117-190 | over every interleaving of calls and sweeps: readings started are those in entries, overflow, evicted and in flight, each once; an entry is exactly what its readings come to and measured exactly when all of them were; the bound holds and births stay apart |
| `AddProtocol.CountersConserve` | internal/aggregator/table.go:117-190 | live counters, overflow, reported evictions and in-flight counts add up to every count handed to add, modulo 2^64 |
| `AddProtocol.QuietTableAccountsForAll` | internal/aggregator/table.go:117-190 | with no call in flight the table and the sweeps account for every reading |
| `AddProtocol.SweepEvictsTheStale` | internal/aggregator/table.go:169-190 | after any interleaving a sweep evicts exactly the keys whose last credited reading is older than the cutoff |
| `AddProtocol.TurnedAwayOnlyWhenFull` | internal/aggregator/table.go:139-156 | after any interleaving a reading is turned away exactly where its key is absent from a full table, and a key let in is the youngest of all |
| `TopK.PartitionEntries` | internal/collector/flows.go:573-597 | the range splits around where its pivot lands, everything before ordering ahead of it, and the array stays a permutation |
| `TopK.SelectLargest` | internal/collector/flows.go:554-567 | the k entries that order first end in front, the loop terminating for every k |
| `TopK.SortEntries` | internal/collector/flows.go:505-507 | a prefix is put in the table's order and the rest is left alone |
| `TopK.CutOf` | internal/collector/flows.go:531-544 | the loop returns the cut of an order |
| `TopK.KeptExactly` | internal/collector/flows.go:528-544 | both tests fail monotonically, so the cut is exactly the rows passing both |
| `TopK.OrderIsUnique` | internal/collector/flows.go:482-502 | a table with births apart has one order |
| `TopK.Published` | internal/collector/flows.go:516-526 | selecting, ordering only what was selected and cutting is cutting the whole order, and the array stays a permutation |
| `TopK.PublicationIgnoresArrangement` | internal/collector/flows.go:482-526 | no arrangement of a snapshot publishes anything else |
| `TopK.PublishedExactly` | internal/collector/flows.go:516-544 | a row is published if and only if it reaches the byte floor and fewer than Top-K rows have more bytes, or as many and an earlier birth |
| `TopK.RankedDescends` | internal/collector/flows.go:482-502 | along the order, and so the cut, bytes never rise, and among equal bytes births strictly rise |
| `EntryListing.Report` | internal/collector/entries.go:127-156 | rows are ranked in order, the withheld totals are the sums of the rows behind the cut and measured exactly when all of those are |
| `EntryListing.EntriesOf` | internal/collector/entries.go:96-110 | the listing reports the whole order with the scrape's own cut |
| `EntryListing.ExporterEntries` | internal/collector/entries.go:115-123 | the per-device table is reported whole, nothing withheld |
| `EntryListing.WholeKeepsCounts` | internal/collector/flows.go:477-480 | the overflow is published with its counts as they stand and both flags set |
| `EntryListing.ListingAgreesWithScrape` | internal/collector/entries.go:62-110 | whatever arrangement each found the table in, the first published rows of the listing are the scrape's, in its order |
| `EntryListing.PublishedAndWithheldAreTheWhole` | internal/collector/entries.go:127-156 | published and withheld counts add up to the whole table's, modulo 2^64 |
| `Scrapes.CollectFamily` | internal/collector/flows.go:458-472 | a scrape publishes the cut of its snapshot and the whole overflow |
| `Scrapes.SnapshotsRearrange` | internal/aggregator/table.go:201-210 | two snapshots of one table differ in arrangement alone |
| `Scrapes.RowsHoldTheEntries` | internal/aggregator/table.go:201-210 | the rows of a snapshot add up to what the entries hold, counter by counter |
| `Scrapes.SnapshotConserves` | internal/aggregator/table.go:117-210 | after any interleaving, snapshot rows, published overflow, reported evictions and in-flight counts add up to every count handed to add, modulo 2^64 |
| `Scrapes.RowsAreTheirReadings` | internal/aggregator/table.go:55-77 | each row's counts are the sums of the readings credited to its key since it came in, and each flag says whether all of those were measured |
| `Scrapes.ScrapesAgree` | internal/collector/flows.go:482-526 | after any interleaving of calls and sweeps, two scrapes with nothing between them publish the same rows in the same order |
| `Net.RoundingFinds` | internal/enrich/vlan.go:116-120 | rounding an address to a prefix's length finds that prefix exactly when it covers the address |
| `VlanTables.ReversedSortDescends` | internal/enrich/vlan.go:141-145 | sorting and reversing distinct lengths leaves them strictly descending and the same lengths |
| `VlanTables.VlanTable.Add` | internal/enrich/vlan.go:130-147 | a prefix is recorded exactly when not taken, and both length lists stay strictly descending and complete |
| `VlanTables.VlanTable.Lookup` | internal/enrich/vlan.go:110-124 | the id of the longest stored prefix covering the address, and false exactly when none does |
| `VlanTables.AnswerIsUnique` | internal/enrich/vlan.go:110-147 | a set of prefixes has one answer for every address, whatever order they were added in |
| `VlanTables.Enricher.Enrich` | internal/enrich/vlan.go:51-83 | each side is put on the VLAN of its longest prefix or left alone, and the record counted filled exactly when a side was covered |
| `VlanMapping.SpellingIsUnique` | internal/enrich/mapping.go:41-44 | no two accepted spellings name one number |
| `VlanMapping.VlanIDExactly` | internal/enrich/mapping.go:403-412 | a key names VLAN n exactly where n is 1 to 4094 and the key is its decimal spelling |
| `VlanMapping.MappedIsRecognised` | internal/enrich/mapping.go:429-431 | an address is told as IPv4-mapped exactly where it is some IPv4 address's 16-byte form |
| `VlanMapping.MappingPrefixExactly` | internal/enrich/mapping.go:422-438 | a spelling is accepted exactly where it reads as a masked prefix of positive length that maps no IPv4 |
| `VlanMapping.AcceptedPrefixesServe` | internal/enrich/mapping.go:422-438 | an accepted prefix is masked as the table's keys are and does not cover every address of its family |
| `VlanMapping.AddVlanPrefixes` | internal/enrich/mapping.go:359-375 | accepted exactly when the list is not empty, every spelling is and none is taken, by the list or before it |
| `VlanMapping.OneMoreEntry` | internal/enrich/mapping.go:336-352 | the walk's own tests, against the table as it stands, decide whether the file contradicts itself |
| `VlanMapping.AddVlans` | internal/enrich/mapping.go:329-355 | in any map order a device's VLANs are accepted exactly when they hold no contradiction, and the table and names then say what the file says |
| `VlanMapping.FileDecidesTheAnswer` | internal/enrich/mapping.go:329-375 | two readings of one file in different orders fill the same table |
| `VlanMapping.LookupReadsTheFile` | internal/enrich/vlan.go:110-124 | a lookup in a filled table is the VLAN of the longest prefix any entry of the file lists for the address |
| `Sharding.ShardsFollowTheHash` | internal/server/lifecycle.go:404-406 | two exporters share a shard exactly where their hashes are a whole number of workers apart, an address and its mapped form always |
| `Sharding.StepRoutes` | internal/server/lifecycle.go:383-406 | every queued or decoding packet sits with the worker its source hashes to, and no shard passes 64 |
| `Sharding.OrderIsKept` | internal/server/lifecycle.go:374-406 | in every reachable state, for any worker count and hash, an exporter's arrivals are its packets done, in decode, queued, held and waiting, in that order and each once |
| `Sharding.OneDecodeEach` | internal/server/lifecycle.go:379-400 | no two packets of one exporter are ever in decode at once |
| `Sharding.DeliverWaitsExactly` | internal/server/lifecycle.go:383-400 | in every reachable state the dispatcher waits exactly while the shard of the packet it holds has 64 queued |
| `Sharding.SomeoneCanMove` | internal/server/lifecycle.go:383-400 | while a packet is in between, some step other than an arrival is enabled |
| `Sharding.EveryStepAdvances` | internal/server/lifecycle.go:383-400 | every such step brings one packet one stage on |
| `Sharding.EveryAdvanceDrains` | internal/server/lifecycle.go:383-400 | once nothing arrives, however the machine moves it drains in exactly the steps ahead of it |
| `Sharding.EveryReachableStateDrains` | internal/server/lifecycle.go:374-406 | from every reachable state a run without arrivals ends with each exporter's packets decoded exactly as they came |
| `Sharding.DrainedInArrivalOrder` | internal/server/lifecycle.go:379-406 | drained, each exporter's packets were decoded exactly as they arrived |

## Left out

- Locks and atomics: a region under a lock is one step and each decode step, sweep and announcement reads one clock instant inside it. The source reads the clock before it takes the domain lock when it adds a template, so the lazy prune is exact under this reading alone. A snapshot that catches a counter update halfway is not modelled.
- The store's heap: a domain is a record kept by value with the cells it shares, not an object several goroutines point at; its three locks' parts are the classes DomainState, DomainSampling and DomainSamplers, each modelled on its own.
- SamplerTables.SamplerTable.Declare: the counter of changed rates is left out; whether a rate changed is proved.
- TopK.SortEntries: the library's sort is represented by its result, written back into the array; its algorithm is not modelled.
- VlanTables.VlanTable.Add: the library's sort and reverse of the length lists are functions on values.
- Clocks.FlowClockIsTheDevices: stated where the export and boot instants are whole milliseconds apart, as IPFIX makes them, and no further than a duration reaches; elsewhere Clocks.DerivedUptime and Clocks.FarBootSaturates say what uptime is read.
- SampleCounters.SampleRunTelescopes: counters only grow within one life of an agent, and a number or counter moves by less than a period less the forward window between two samples held; the first sample of another life does not read as the next of the one held. No 32-bit reading tells such samples apart, so they are outside the run.
- Record fields: the mapping of field values onto a flow record, its addresses, packet sections and counters. A decoded record is its template and its values.
- The readers of NetFlow v5 and v8 and of sFlow, which call the same trackers.
- Application tables: the strings handed to them are exact, what they keep is not modelled. Note limiter, unread-field notes, exporter statistics and string interning.
- The text of the mapping file: an address or prefix is what its spelling reads as, and the rule for a printable name is a parameter.
- Device and interface names, services, threat lists and the other enrichers.
- The queue that feeds the dispatcher is unbounded here; the receiver's own drops are not modelled.
- Sockets, HTTP, signals, configuration, logging, metric descriptors and label rendering.
