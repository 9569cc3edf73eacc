# A verified model of the snap C++ plugin library

This project models the parts of the library whose behaviour is hardest to see from reading the code, and proves
what they promise.

* **The streaming collector pipeline.** `PipelineState.dfy` turns one `StreamMetrics` call into a state machine. Its
  steps are those of the four library threads (`metricSend`, `errorSend`, `streamRecv`, `PutSendMetsAndErrMsg`), the
  cancellation of the call, the clock, and a plugin, which is either arbitrary or keeps to the three-flag handshake of
  the example plugin `Rando`. A step is one channel operation, one append or full-buffer test, one `Write`, or one
  change of a flag. `PipelineSafety`, `PipelineReplies`, `PipelineLimits`, `PipelineChunking`, `PipelineTimer`,
  `PipelineHandshake`, `PipelineRequests`, `PipelineShutdown` and `PipelineCompletion` prove whole-run properties over
  every interleaving. `Channels.dfy`, `Rando.dfy` and `StreamCollector.dfy` hold the classes as the code updates them
  in place, one loop turn to a method, proved against the same functions. The `Solo…` lemmas of `StreamCollector` tie
  the two views together, thread by thread, and `PeerView` ties the pipeline's metrics to the messages of the codec.
* **The wire codec of the metric messages.** `Wire.dfy` builds the primitive layer from the Protocol Buffers
  Encoding specification (sections "Base 128 Varints", "Message Structure" and "Length-Delimited Records"), and
  `MessageLoop.dfy` the plain read-a-tag-and-switch loop, for any message type. `Messages.dfy` says what one record
  does to each message and as which records it is written. `MergeProofs`, `RoundTrip`, `Sizes` and `Canonical` prove
  the algebra, and `Layout` writes the bytes themselves out, number by number. `CodedStreams`, `CodedOutputs`,
  `SmallMessages`, `ConfigMapMessages` and `MetricMessages` hold the generated classes as they are: a cursor over a
  buffer, message fields updated in place, parsers that jump from field to field, a stream serializer, an array
  serializer, `ByteSize` with its cached sizes, and `MergeFrom`. Each method is proved equal to the plain form on
  every input.
* **Flags, defaults and instants.** `Flags.dfy` is the recursive rewriting of a JSON argument into flags,
  `ConfigPolicy.dfy` the policy keys and the application of defaults, `MetricTime.dfy` the split of an instant into
  seconds and nanoseconds.

`dafny verify dfyconfig.toml` checks everything.

## Findings

Where the code does not keep what one would expect of it, the model keeps the code and states exactly when the
expectation holds.

* Shutdown is not unconditional. `get` waits without a timeout, and a waiting thread is the only one that closes its
  channel. From a reachable state of a cancelled call, and with a plugin that keeps to the handshake, every schedule
  ends all four threads if and only if neither sender is stranded (`PipelineCompletion.ShutdownCompletes`): metricSend
  is, if it waits on an empty channel and `PutSendMetsAndErrMsg` has no raised batch flag to act on before it looks at
  the cancellation again; errorSend is in the same way, and also when its error comes behind a batch whose put may
  still throw, because metricSend is not waiting for that batch. An arbitrary plugin may lower a flag before it is
  tested: then they all end if and only if no sender waits on an empty channel, but for one whose put has begun
  (`ShutdownCompletesAnyhow`).
* A buffer limit is tested with an equality. A call that starts with a positive limit keeps its buffer within the limit
  if and only if every new limit, when it takes effect, exceeds what is buffered, or equals it while a full-buffer
  flush is due (`PipelineLimits.BufferStaysBounded`). Otherwise the limit can be missed, and a missed one is not met
  again: metricSend then writes nothing more until the timer fires or another limit comes
  (`LoweredLimitNeverFlushes`, `MissedStep`).
* `Rando` cannot report an error: it raises one only in the "Invalid type" branch of its switch, and indexing its type
  table with an unknown name inserts zero, which is float32 (`RandoPlugin.RandoNeverReportsErrors`).
* An error stays in the shared reply: once written, it goes out with every later write, of metrics too, until a newer
  one is stored (`PipelineReplies.ErrorStays`). A write of errorSend likewise shows metrics ahead of the flush that
  follows, or those of the last flush once more (`SharedReply`).
* A round trip of a message holds if and only if its text is valid UTF-8; serializing does not check it, parsing does
  (`RoundTrip.MetricRoundTrip`).
* The deterministic flag stops at the top level in the array serializer. Two deterministic writes of one Metric agree
  if and only if its Config iterated in the same order both times (`Canonical.MetricIsCanonicalUpToConfig`), and the
  stream and array serializers agree if and only if that order is ascending already or determinism was not asked for
  (`MetricMessages.SerializersAgree`).
* Rules of different namespaces can overwrite each other. Two namespaces share a key if and only if they have the same
  pieces, that is, the same parts once each part is cut at its own dots (`ConfigPolicies.KeysCollide`,
  `RuleSurvives`); a namespace has its key to itself if and only if it is one part, not empty and without a dot
  (`KeyIsItsOwn`).
* `apply_defaults` depends on hash-map iteration order if and only if two defaults of one missing key differ
  (`ConfigPolicies.OrderMattersUnlessDefaultsAgree`), and a default integer outside 32 bits is truncated
  (`IntDefaultSurvives`).
* `timestamp()` rebuilds an instant if and only if it is not before the epoch (`MetricTimes.InstantRebuilt`).

## Model

| member | source | states |
|---|---|---|
| Channels.FirstInFirstOut | src/snap/proxy/stream_collector_proxy.cc:279-303 | putting and then taking the front leaves the same channel as taking first: a channel is first in, first out |
| Channels.WaitEnds | src/snap/proxy/stream_collector_proxy.cc:266-303 | a put and a close end the wait of a get; on an open, empty channel, and only there, it goes on |
| Channels.StreamChannel.constructor | src/snap/proxy/stream_collector_proxy.h:123-129 | a new channel is open and empty |
| Channels.StreamChannel.Put | src/snap/proxy/stream_collector_proxy.cc:279-287 | throws exactly on a closed channel and then changes nothing; otherwise appends at the back |
| Channels.StreamChannel.Get | src/snap/proxy/stream_collector_proxy.cc:289-303 | false exactly on an empty queue; otherwise appends the oldest item to the argument and removes it; a waiting get that fails means closed |
| Channels.StreamChannel.Close | src/snap/proxy/stream_collector_proxy.cc:266-271 | closes and keeps the queue |
| Channels.StreamChannel.IsClosed | src/snap/proxy/stream_collector_proxy.cc:273-277 | tells whether the channel is closed |
| Pipeline.Invariance | src/snap/proxy/stream_collector_proxy.cc:108-131 | induction over every interleaving of the threads, the plugin, the clock and the cancellation |
| PipelineSafety.StepMoves | src/snap/proxy/stream_collector_proxy.cc:133-210 | each step of any thread moves metrics in one of four ways only: not at all, a put, a take, a write |
| PipelineSafety.MovesBalance | src/snap/proxy/stream_collector_proxy.cc:171-210 | each of those moves keeps the books balanced |
| PipelineSafety.Conservation | src/snap/proxy/stream_collector_proxy.cc:171-210 | in every run, limits and timer whatever they are, all metrics put on the send channel are the ones written, then the buffer, then the rest of the batch in hand, then the queue: none lost, doubled or reordered |
| PipelineSafety.CancellationSafety | src/snap/proxy/stream_collector_proxy.cc:148-249 | in every run: a closed channel, an ended thread or a plugin told so implies that the call is cancelled; a channel is closed exactly once its thread is past closing it, and the plugin has been told exactly when some thread has ended; streamRecv never puts to a closed channel |
| PipelineReplies.WriteExplained | src/snap/proxy/stream_collector_proxy.cc:251-264 | a write made in any reachable state holds the current buffer and the last error dequeued |
| PipelineReplies.SharedReply | src/snap/proxy/stream_collector_proxy.cc:50-59 | in every interleaving of the two writers of the aliased reply: leaving out errorSend's writes leaves each flushed metric once and in order, leaving out metricSend's leaves each error once and in order; every write is the pair of buffer and last error at its place in the log; and what errorSend shows of the buffer is a prefix of the next flush, or the last one |
| PipelineReplies.ErrorStays | src/snap/proxy/stream_collector_proxy.cc:156-159 | two writes carry the same error unless a newer one was stored between them |
| PipelineLimits.LimitsAreLastPositive | src/snap/proxy/stream_collector_proxy.cc:221-231 | each limit is the last positive value received, or else the initial one |
| PipelineLimits.RoomyStep | src/snap/proxy/stream_collector_proxy.cc:180-187 | one step keeps the buffer within a positive limit if and only if a new limit leaves room |
| PipelineLimits.BufferStaysBounded | src/snap/proxy/stream_collector_proxy.cc:180-187 | in every state of a run the buffer is within the limit, and below it between appends, if and only if every new limit leaves room |
| PipelineLimits.WritesStayBounded | src/snap/proxy/stream_collector_proxy.cc:180-187 | then no write by either thread exceeds the limit in force |
| PipelineLimits.MissedStep | src/snap/proxy/stream_collector_proxy.cc:182-182 | without a new limit or the timer, a missed positive limit stays missed and one that is not missed stays so |
| PipelineLimits.LoweredLimitNeverFlushes | src/snap/proxy/stream_collector_proxy.cc:182-182 | once the limit is negative, or reached past the equality test, metricSend writes nothing more and the buffer only grows, until the timer or a new limit |
| PipelineChunking.ChunksUnique | src/snap/proxy/stream_collector_proxy.cc:180-187 | there is one way to cut a sequence into full chunks and a shorter rest |
| PipelineChunking.ChunkingRefinement | src/snap/proxy/stream_collector_proxy.cc:176-195 | with a fixed positive limit and no timer the writes are exactly the full chunks of the concatenated input and the buffer is the remainder, however the input was split |
| PipelineChunking.ImmediateRefinement | src/snap/proxy/stream_collector_proxy.cc:188-193 | with limit zero the writes are exactly the non-empty batches, one write each |
| PipelineTimer.StartIsLastFlush | src/snap/proxy/stream_collector_proxy.cc:184-200 | the start time is when the last flush ended, or the beginning of the call |
| PipelineTimer.FlushesStart | src/snap/proxy/stream_collector_proxy.cc:180-201 | in every run metricSend starts a flush exactly when an append has met the limit last asked for, a batch has ended under limit zero, or at the timer test, and then exactly if the seconds last asked for, a thousand million nanoseconds each, have passed since the last flush ended |
| PipelineTimer.WritesAreNotEmpty | src/snap/proxy/stream_collector_proxy.cc:251-259 | no write of metricSend in any run is without metrics |
| PipelineHandshake.ExactlyOnceHandOff | src/snap/proxy/stream_collector_proxy.cc:135-147 | every batch completed and every error raised is put on its channel once, unchanged and in order; only the latest can be waiting, under its flag |
| PipelineHandshake.WaitingBatchAdvances | src/snap/proxy/stream_collector_proxy.cc:133-149 | before cancellation every step of PutSendMetsAndErrMsg puts the waiting batch or brings its put closer, and no other step touches it |
| PipelineHandshake.WaitingErrorAdvances | src/snap/proxy/stream_collector_proxy.cc:133-149 | before cancellation every step of PutSendMetsAndErrMsg puts the waiting error or brings its put closer, and no other step touches it |
| PipelineHandshake.AccumulatedKept | src/snap/proxy/stream_collector_proxy.cc:144-146 | the vector handed to get holds everything received so far, because get appends |
| PipelineHandshake.RequestedOnlyOutput | examples/streaming-collector/src/rando.cc:108-168 | every batch put on the send channel has exactly the namespaces of the first k request batches, for some k |
| PipelineHandshake.RequestsPutInOrder | src/snap/proxy/stream_collector_proxy.cc:216-241 | what is put on the receive channel are the metrics of the requests read, in order, but for the one in hand |
| PipelineHandshake.WrittenWasRequested | src/snap/proxy/stream_collector_proxy.cc:108-131 | end to end: for whatever metricSend writes, some request read from the stream asks for its namespace |
| PipelineRequests.RequestsAreTakenOver | examples/streaming-collector/src/rando.cc:159-168 | in every run the vector handed to the plugin is every request received by then; handing over raises the flag, and the next turn of drain_metrics makes exactly that vector the batch to work on |
| PipelineRequests.BatchesAnswerAllRequests | examples/streaming-collector/src/rando.cc:108-157 | in every run a batch can be produced exactly when no flag is up, the plugin has not been told to stop, and its namespaces are those of all requests handed over so far, in order |
| PipelineRequests.DrainedRequestIsAnswered | examples/streaming-collector/src/rando.cc:108-168 | a turn of stream_it after one of drain_metrics produces a batch that asks for every request handed over before it |
| PipelineRequests.WaitingRequestAdvances | src/snap/proxy/stream_collector_proxy.cc:144-147 | before cancellation every step of PutSendMetsAndErrMsg receives the oldest request or brings its get closer, and no other step takes it |
| PipelineRequests.HandedRequestAdvances | examples/streaming-collector/src/rando.cc:159-168 | before cancellation steps of PutSendMetsAndErrMsg lower the flags that keep a request from being taken over, none raises them again, and nothing is produced for older requests meanwhile |
| PipelineRequests.ToldMeansSilent | examples/streaming-collector/src/rando.cc:108-109 | a plugin told of the cancellation produces and raises nothing more, in any run |
| PipelineShutdown.ShutdownMeasure | src/snap/proxy/stream_collector_proxy.cc:133-249 | after cancellation the threads together take at most a given number of steps, plus four for each metric of at most one more batch, under any scheduler |
| PipelineShutdown.HaltedMeans | src/snap/proxy/stream_collector_proxy.cc:133-249 | no thread can move if and only if each has ended or waits in get on an open empty channel |
| PipelineShutdown.HungForever | src/snap/proxy/stream_collector_proxy.cc:176-204 | a metricSend that waits after PutSendMetsAndErrMsg has ended waits forever |
| PipelineShutdown.ShutdownCanHang | src/snap/proxy/stream_collector_proxy.cc:289-294 | from every start there is a run that is cancelled and then hangs so |
| PipelineShutdown.ClosedAndEmptyIsAbsorbing | src/snap/proxy/stream_collector_proxy.cc:266-303 | a closed and drained channel stays closed and empty in every run |
| PipelineCompletion.RunToHalt | src/snap/proxy/stream_collector_proxy.cc:133-249 | after cancellation the threads can be run until none of them can move |
| PipelineCompletion.MetricSendEnds | src/snap/proxy/stream_collector_proxy.cc:176-204 | after cancellation, with a handshaking plugin, every schedule ends metricSend if and only if it does not wait on an empty channel with no put under way |
| PipelineCompletion.ErrorSendEnds | src/snap/proxy/stream_collector_proxy.cc:154-163 | the same for errorSend, whose error may be behind a batch that is put first |
| PipelineCompletion.ShutdownCompletes | src/snap/proxy/stream_collector_proxy.cc:133-249 | in every reachable state of a cancelled call, with a handshaking plugin, every schedule ends all four threads if and only if neither sender is stranded |
| PipelineCompletion.ShutdownCompletesAnyhow | src/snap/proxy/stream_collector_proxy.cc:133-249 | the same for any plugin at all: if and only if no sender waits on an empty channel, but for one whose put has begun |
| RandoPlugin.Rando.constructor | examples/streaming-collector/src/rando.h:59-65 | the plugin starts with empty vectors and all flags down |
| RandoPlugin.Rando.MetricType | examples/streaming-collector/src/rando.cc:116-117 | looking up a type keeps the table's known names; an unknown name reads as float32 |
| RandoPlugin.Rando.SetData | examples/streaming-collector/src/rando.cc:119-147 | the switch on the type, for any kind: the data is set, or the message and the flag |
| RandoPlugin.KindInTable | examples/streaming-collector/src/rando.cc:116-117 | every name has a kind of the table, known or not |
| RandoPlugin.TurnRaisesNothing | examples/streaming-collector/src/rando.cc:115-149 | so the loop over a batch raises no error, whatever its metrics are called |
| RandoPlugin.TurnFills | examples/streaming-collector/src/rando.cc:115-149 | a turn gives every metric data of the type that the fifth element of its namespace names, and its own clock reading |
| RandoPlugin.DecimalReads | examples/streaming-collector/src/rando.cc:141-143 | a string value is the random number in decimal digits, without leading zeros |
| RandoPlugin.WrittenIsTyped | examples/streaming-collector/src/rando.cc:115-149 | in every run of the library with turns of Rando each metric metricSend writes has data of the type its namespace names |
| RandoPlugin.Rando.StreamIt | examples/streaming-collector/src/rando.cc:108-157 | one turn: acts only under the guard and puts every metric through the switch, with a clock reading each; vector, message and flags end as the loop makes them |
| RandoPlugin.Rando.DrainMetrics | examples/streaming-collector/src/rando.cc:159-168 | one turn: acts only under its guard, takes over the requested batch and lowers the flag |
| RandoPlugin.Rando.GetMetricsIn | examples/streaming-collector/src/rando.h:44-48 | replaces the requested batch and raises the flag |
| RandoPlugin.Rando.SetPutMets | examples/streaming-collector/src/rando.h:51-51 | sets the one flag |
| RandoPlugin.Rando.SetPutErr | examples/streaming-collector/src/rando.h:53-53 | sets the one flag |
| RandoPlugin.Rando.SetContextCancelled | examples/streaming-collector/src/rando.h:54-56 | sets the one flag |
| RandoPlugin.RandoNeverReportsErrors | examples/streaming-collector/src/rando.cc:116-147 | in every run of the library with turns of Rando the error channel stays unused and every reply has an empty error |
| StreamCollector.StreamCollectorImpl.constructor | src/snap/proxy/stream_collector_proxy.cc:50-59 | the two replies alias the parts of the collect reply; three open, distinct channels |
| StreamCollector.StreamCollectorImpl.SendReply | src/snap/proxy/stream_collector_proxy.cc:251-264 | writes metrics and error together, and nothing when there are no metrics |
| StreamCollector.StreamCollectorImpl.AppendAll | src/snap/proxy/stream_collector_proxy.cc:180-187 | the loop over one batch writes and keeps what the batching function says; every flush reads the clock, and the last reading is the start time |
| StreamCollector.BatchedIsChunking | src/snap/proxy/stream_collector_proxy.cc:180-187 | under a positive limit that function cuts buffer and batch into full chunks and a remainder |
| StreamCollector.BatchedNeverFlushes | src/snap/proxy/stream_collector_proxy.cc:182-182 | with the buffer at or above the limit it never flushes |
| StreamCollector.StreamCollectorImpl.TakeBatch | src/snap/proxy/stream_collector_proxy.cc:179-194 | a batch under limit zero is followed by a flush |
| StreamCollector.StreamCollectorImpl.FlushIfLate | src/snap/proxy/stream_collector_proxy.cc:197-201 | one reading of the clock decides; a flush takes another for the new start |
| StreamCollector.StreamCollectorImpl.MetricSendTurn | src/snap/proxy/stream_collector_proxy.cc:176-202 | one turn of the loop: the channel, the log, the buffer, the start time and the number of clock readings afterwards |
| StreamCollector.IdleTurn | src/snap/proxy/stream_collector_proxy.cc:177-201 | a turn that gets no metrics flushes only for the timer, whatever the limit |
| StreamCollector.StreamCollectorImpl.ErrorSendTurn | src/snap/proxy/stream_collector_proxy.cc:154-161 | one turn: the oldest error is stored and written together with the metrics buffered then |
| StreamCollector.StreamCollectorImpl.StreamRecvTurn | src/snap/proxy/stream_collector_proxy.cc:216-241 | one turn: positive limits are taken over, a request with metrics is put on the channel |
| StreamCollector.StreamCollectorImpl.PutSendTurn | src/snap/proxy/stream_collector_proxy.cc:135-147 | one turn: what was put and got, which flags are lowered and raised, also when a put throws |
| StreamCollector.StreamCollectorImpl.CloseAndMark | src/snap/proxy/stream_collector_proxy.cc:203-204 | the way out: close the own channel, tell the plugin |
| StreamCollector.SoloBatch | src/snap/proxy/stream_collector_proxy.cc:180-187 | metricSend's steps, left alone, do to a batch exactly what the method's loop does with the same clock readings |
| StreamCollector.SoloMetricTurn | src/snap/proxy/stream_collector_proxy.cc:176-202 | metricSend's steps, left alone, make up the turn its method takes |
| StreamCollector.SoloErrorTurn | src/snap/proxy/stream_collector_proxy.cc:154-161 | the same for errorSend |
| StreamCollector.SoloRecvTurn | src/snap/proxy/stream_collector_proxy.cc:216-241 | the same for streamRecv |
| StreamCollector.SoloPutTurn | src/snap/proxy/stream_collector_proxy.cc:135-147 | the same for PutSendMetsAndErrMsg, for any plugin |
| PeerView.PeerReadsReply | src/snap/proxy/stream_collector_proxy.cc:251-264 | the peer reads back the reply written, whatever metrics and error the pipeline put into it, and can tell it from any other |
| PeerView.TextIsUtf8 | src/snap/rpc/plugin.pb.cc:2608-2613 | text encoded character by character passes the parser's check |
| PeerView.Utf8Means | src/snap/rpc/plugin.pb.cc:2608-2613 | the parser's check accepts exactly the bytes that are the encoding of some text |
| PeerView.SomeCodingIsFaithful | src/snap/rpc/plugin.pb.cc:3930-3938 | whole numbers within the significand of float and double can be told apart by their bit patterns |
| Wire.VarintRoundTrip | src/snap/rpc/plugin.pb.cc:2309-2311 | a written 64-bit varint is read back, whatever follows it |
| Wire.VarintSizeExact | src/snap/rpc/plugin.pb.cc:2395-2399 | the size function of varints is exact |
| Wire.ReadEncodedValue | src/snap/rpc/plugin.pb.cc:3537-3539 | a written payload of any wire type is read back, whatever follows it |
| Layout.VarintBytes | src/snap/rpc/plugin.pb.cc:2360-2367 | the bytes of a varint: groups of seven bits, least significant first, all but the last marked, none to spare |
| Layout.VarintAccepted | src/snap/rpc/plugin.pb.cc:2309-2311 | which bytes read as a varint and as what number: the first unmarked byte is among the first ten, and bits above the 64th are dropped |
| Layout.DelimitedAccepted | src/snap/rpc/plugin.pb.cc:2608-2609 | a length is accepted if and only if it fits an int and that many bytes are there |
| Layout.TagAccepted | src/snap/rpc/plugin.pb.cc:3513-3515 | a tag is the lower 32 bits of a varint |
| Layout.TwosComplement | src/snap/rpc/plugin.pb.cc:3704-3706 | 64-bit numbers are written modulo 2^64, 32-bit ones sign-extended, and read back to their width |
| Layout.LittleEndian | src/snap/rpc/plugin.pb.cc:3930-3938 | float and double have their least significant byte first |
| Layout.GroupSkipped | src/snap/rpc/plugin.pb.cc:3794-3803 | a group of unknown fields is skipped up to the end tag with its own number; another end tag makes it fail |
| Layout.GroupIsOneField | src/snap/rpc/plugin.pb.cc:3794-3803 | for every message type, a group counts as one field whatever is in it |
| Layout.LoopStops | src/snap/rpc/plugin.pb.cc:3794-3800 | for every message type, a zero tag or an end-group tag stops the loop |
| Layout.UnknownFields | src/snap/rpc/plugin.pb.cc:3794-3803 | in each of seven messages, unknown numbers and known numbers under another wire type change nothing |
| Layout.NumbersRead | src/snap/rpc/plugin.pb.cc:3699-3785 | what any 64-bit varint means in each number field of a Metric |
| MessageLoop.ParseEncoded | src/snap/rpc/plugin.pb.cc:3512-3516 | for every message type, parsing written records is folding them into the message |
| MessageLoop.ParseConcat | src/snap/rpc/plugin.pb.cc:3507-3813 | for every message type and all bytes, parsing a concatenation whose first part parses cleanly parses the second part into the first part's result |
| RoundTrip.ParseIsMerge | src/snap/rpc/plugin.pb.cc:4298-4366 | parsing a written Metric into any message is MergeFrom, for any map order, and succeeds exactly on valid text |
| RoundTrip.MetricRoundTrip | src/snap/rpc/plugin.pb.cc:3507-3972 | a Metric is read back as it was, with presence, the oneof, namespace order and all maps, if and only if its text is valid UTF-8 |
| RoundTrip.MergeHomomorphism | src/snap/rpc/plugin.pb.cc:4298-4366 | parsing two written Metrics end to end is merging them |
| RoundTrip.TimeHomomorphism | src/snap/rpc/plugin.pb.cc:2430-2441 | the same for Times |
| RoundTrip.ElementHomomorphism | src/snap/rpc/plugin.pb.cc:2799-2816 | the same for namespace elements |
| RoundTrip.ConfigHomomorphism | src/snap/rpc/plugin.pb.cc:5796-5805 | the same for ConfigMaps, for any map orders |
| RoundTrip.TimeMonoid | src/snap/rpc/plugin.pb.cc:2430-2441 | merging Times is associative, with the empty message as identity |
| RoundTrip.ElementMonoid | src/snap/rpc/plugin.pb.cc:2799-2816 | the same for namespace elements |
| RoundTrip.ConfigMonoid | src/snap/rpc/plugin.pb.cc:5796-5805 | the same for ConfigMaps |
| RoundTrip.MetricMonoid | src/snap/rpc/plugin.pb.cc:4298-4366 | the same for Metrics, with nested presence |
| RoundTrip.ReplyRoundTrip | src/snap/rpc/plugin.pb.cc:1471-1543 | a CollectReply, with all the metrics and the error in it, is read back as it was, exactly when its text is valid |
| RoundTrip.ConfigRoundTrip | src/snap/rpc/plugin.pb.cc:5149-5492 | a ConfigMap is read back as it was, exactly when its text is valid |
| RoundTrip.ElementRoundTrip | src/snap/rpc/plugin.pb.cc:2594-2709 | a namespace element is read back as it was, exactly when its text is valid |
| Layout.TimeBytes | src/snap/rpc/plugin.pb.cc:2372-2387 | the bytes of a Time, tag by tag |
| Layout.ElementBytes | src/snap/rpc/plugin.pb.cc:2711-2749 | the bytes of a namespace element |
| Layout.EntriesBytes | src/snap/rpc/plugin.pb.cc:778-789 | the bytes of a map entry of each kind: key under tag 0x0A, value under 0x10, 0x12, 0x11 and 0x10 |
| Layout.ConfigBytes | src/snap/rpc/plugin.pb.cc:5494-5715 | the bytes of a ConfigMap, to the last one |
| Layout.MetricBytes | src/snap/rpc/plugin.pb.cc:3974-4144 | the bytes of a Metric, to the last one: each tag, each length, the order of the fields and what is left out |
| Layout.ReplyBytes | src/snap/rpc/plugin.pb.cc:1527-1543 | the bytes of a CollectReply with all its metrics |
| Layout.TagRead | src/snap/rpc/plugin.pb.cc:3578-3595 | the bytes of an entry are read as that tag if and only if key and value are valid text; missing ones are empty |
| Layout.ConfigEntriesRead | src/snap/rpc/plugin.pb.cc:5158-5256 | the same for the four maps of a ConfigMap |
| Layout.EmptyEntriesRead | src/snap/rpc/plugin.pb.cc:5158-5256 | an entry without fields reads as an empty key and a zero value |
| Layout.EntryNumbersRead | src/snap/rpc/plugin.pb.cc:5158-5256 | what any 64-bit varint means as the value of an integer or boolean entry |
| Sizes.ByteSizeExact | src/snap/rpc/plugin.pb.cc:4146-4279 | ByteSize is the number of bytes written, though the two may walk the maps in different orders |
| Sizes.TimeSizeExact | src/snap/rpc/plugin.pb.cc:2389-2410 | the size of a Time, ten-byte negatives included |
| Sizes.ElementSizeExact | src/snap/rpc/plugin.pb.cc:2751-2780 | the size of a namespace element |
| Sizes.ConfigSizeExact | src/snap/rpc/plugin.pb.cc:5717-5777 | the size of a ConfigMap with its entries' length prefixes |
| Sizes.DataSizeExact | src/snap/rpc/plugin.pb.cc:4216-4272 | the size of each oneof member, with the two-byte tags of fields 16 and 17 |
| Sizes.SumOfAnyOrder | src/snap/rpc/plugin.pb.cc:5717-5777 | a sum over a map's keys does not depend on the order they are walked in |
| Sizes.MapByteSize | src/snap/rpc/plugin.pb.cc:5722-5732 | the counting loop over one map adds up to the size of all its entries |
| Canonical.SortSorts | src/snap/rpc/plugin.pb.cc:5306-5324 | sorting keeps the keys and makes each come before the later ones at the first byte where they differ |
| Canonical.LessMeans | src/snap/rpc/plugin.pb.cc:5306-5317 | one key comes before another if and only if it is a proper prefix or has the smaller byte where they first differ |
| Canonical.AscendingIsUnique | src/snap/rpc/plugin.pb.cc:5306-5324 | a set of keys has one ascending order |
| Canonical.ConfigIsCanonical | src/snap/rpc/plugin.pb.cc:5288-5492 | equal ConfigMaps serialize deterministically to equal bytes, however their maps iterate |
| Layout.DeterministicConfigBytes | src/snap/rpc/plugin.pb.cc:5306-5324 | the deterministic bytes are the layout of the ConfigMap with the keys of every map in that order, of which there is only one |
| Layout.DeterministicMetricBytes | src/snap/rpc/plugin.pb.cc:3850-3890 | the same for the tags of a Metric, whose Config is laid out as it iterates |
| Canonical.EncodingIsInjective | src/snap/rpc/plugin.pb.cc:3815-3972 | equal bytes come from equal records |
| Canonical.MetricIsCanonicalUpToConfig | src/snap/rpc/plugin.pb.cc:3989-3994 | two deterministic writes of one Metric agree if and only if its Config iterated alike |
| CodedStreams.CodedInputStream.ReadTagWithCutoff | src/snap/rpc/plugin.pb.cc:3513-3515 | the next tag, or none; whether the message was at its end |
| CodedStreams.CodedInputStream.ExpectTag | src/snap/rpc/plugin.pb.cc:3527-3529 | consumes the expected tag exactly when its bytes come next |
| CodedStreams.CodedInputStream.PushLimit | src/snap/rpc/plugin.pb.cc:3520-3523 | a sub-message is its length's worth of bytes inside the outer limit |
| CodedStreams.ExpectedTag | src/snap/rpc/plugin.pb.cc:3527-3529 | a tag found where it was expected is the tag the plain loop would have read |
| CodedStreams.TagStep | src/snap/rpc/plugin.pb.cc:3794-3803 | reading a tag ends the parse at a zero or end-group tag and otherwise goes on with its field |
| SmallMessages.TimeMessage.MergePartialFromCodedStream | src/snap/rpc/plugin.pb.cc:2296-2354 | the jumping parser ends like the plain loop on every byte string: same message, same failure |
| SmallMessages.TimeMessage.ReadMessage | src/snap/rpc/plugin.pb.cc:3565-3566 | as a sub-message: the whole length is used up or the read fails |
| SmallMessages.TimeMessage.SerializeWithCachedSizes | src/snap/rpc/plugin.pb.cc:2356-2370 | appends the bytes of the message |
| SmallMessages.TimeMessage.InternalSerializeWithCachedSizesToArray | src/snap/rpc/plugin.pb.cc:2372-2387 | fills the array with those bytes and touches nothing else |
| SmallMessages.TimeMessage.ByteSize | src/snap/rpc/plugin.pb.cc:2389-2410 | returns and caches the number of bytes written |
| SmallMessages.TimeMessage.MergeFrom | src/snap/rpc/plugin.pb.cc:2430-2441 | merges, and changes nothing of the other message |
| SmallMessages.NamespaceElementMessage.MergePartialFromCodedStream | src/snap/rpc/plugin.pb.cc:2594-2673 | the jumping parser ends like the plain loop on every byte string |
| SmallMessages.NamespaceElementMessage.SerializeWithCachedSizes | src/snap/rpc/plugin.pb.cc:2675-2709 | appends the bytes of the message |
| SmallMessages.NamespaceElementMessage.InternalSerializeWithCachedSizesToArray | src/snap/rpc/plugin.pb.cc:2711-2749 | fills the array with those bytes and touches nothing else |
| SmallMessages.NamespaceElementMessage.ByteSize | src/snap/rpc/plugin.pb.cc:2751-2780 | returns and caches the number of bytes written |
| SmallMessages.NamespaceElementMessage.MergeFrom | src/snap/rpc/plugin.pb.cc:2799-2816 | merges, and changes nothing of the other message |
| ConfigMapMessages.ConfigMapMessage.ParseField | src/snap/rpc/plugin.pb.cc:5158-5256 | one entry goes into its map, the last one for a key wins, and text is checked |
| ConfigMapMessages.ConfigMapMessage.MergePartialFromCodedStream | src/snap/rpc/plugin.pb.cc:5149-5286 | the parser that jumps between the four maps ends like the plain loop on every byte string |
| ConfigMapMessages.ConfigMapMessage.SerializeWithCachedSizes | src/snap/rpc/plugin.pb.cc:5288-5492 | appends the bytes, with each map's keys sorted if the output is deterministic |
| ConfigMapMessages.ConfigMapMessage.InternalSerializeWithCachedSizesToArray | src/snap/rpc/plugin.pb.cc:5494-5715 | fills the array with the same bytes and touches nothing else |
| ConfigMapMessages.ConfigMapMessage.ByteSize | src/snap/rpc/plugin.pb.cc:5717-5777 | returns and caches the size |
| ConfigMapMessages.ConfigMapMessage.MergeFrom | src/snap/rpc/plugin.pb.cc:5796-5805 | merges map by map |
| MetricMessages.MetricMessage.ParseField | src/snap/rpc/plugin.pb.cc:3516-3792 | each field's body does to the object what its record does to the value; sub-messages are created, never replaced |
| MetricMessages.MetricMessage.NextField | src/snap/rpc/plugin.pb.cc:3527-3792 | jumping to an expected field continues the plain loop's parse |
| MetricMessages.MetricMessage.MergePartialFromCodedStream | src/snap/rpc/plugin.pb.cc:3507-3813 | the parser that jumps along seventeen fields ends like the plain loop on every byte string: same message, same failure, same end |
| MetricMessages.MetricMessage.ParseFromBytes | src/snap/rpc/plugin.pb.cc:3507-3813 | a whole buffer is accepted exactly when the plain loop uses it up cleanly, with the same message |
| MetricMessages.MetricMessage.SerializeWithCachedSizes | src/snap/rpc/plugin.pb.cc:3815-3972 | appends the bytes of the message, with the length prefixes ByteSize cached |
| MetricMessages.MetricMessage.InternalSerializeWithCachedSizesToArray | src/snap/rpc/plugin.pb.cc:3974-4144 | fills the array with the bytes and touches nothing else; nested messages are not sorted |
| MetricMessages.MetricMessage.ByteSize | src/snap/rpc/plugin.pb.cc:4146-4279 | returns and caches the size here and in every sub-message, and changes no value |
| MetricMessages.MetricMessage.SizesReady | src/snap/rpc/plugin.pb.cc:4146-4279 | the sizes cached under one map order fit a write under another |
| MetricMessages.MetricMessage.SerializeToArray | src/snap/rpc/plugin.pb.cc:3974-4279 | an array of ByteSize bytes is filled exactly, to its last byte |
| MetricMessages.MetricMessage.MergeFrom | src/snap/rpc/plugin.pb.cc:4298-4366 | merges fields, oneof, maps and sub-messages, creating those that are missing |
| MetricMessages.SerializersAgree | src/snap/rpc/plugin.pb.cc:3829-3833 | stream and array form write the same bytes if and only if no nested sorting makes a difference |
| Flags.RemoveUnusedFlags | src/snap/flags.cc:380-397 | collecting and then erasing keys keeps exactly the known flags that are not false, in order |
| Flags.GenerateCommandLineFromJson | src/snap/flags.cc:399-410 | fills the array from the index to its end, two slots for every entry |
| Flags.SlotAt | src/snap/flags.cc:399-418 | which slot holds which of the six flag names, and which value: true in words, anything else as printed but for the double quotes |
| Flags.UnquotedMeans | src/snap/flags.cc:412-418 | every double quote goes and nothing else does, character by character |
| Flags.KeptMeans | src/snap/flags.cc:380-397 | exactly the six known keys are kept, unless their value is false |
| Flags.RewriteArguments | src/snap/flags.cc:356-365 | the new vector is the program, the other arguments, and the slots; no slot is left unwritten or written outside the array |
| Flags.FlagParser.RewriteJson | src/snap/flags.cc:338-365 | a vector is rewritten exactly when its first argument is an object or empty JSON |
| Flags.RewriteShape | src/snap/flags.cc:330-365 | a rewrite leaves one original argument less, and what follows the originals starts with dashes |
| Flags.VectorShift | src/snap/flags.cc:356-367 | rewriting again gives the next vector of the closed form |
| Flags.FlagParser.ParseJsonFlags | src/snap/flags.cc:338-370 | terminates; hands the option parser the rewritten vectors, the most rewritten first, until one is not refused |
| Flags.FlagParser.ParseCommandLineFlags | src/snap/flags.cc:306-328 | the same with the vector itself as the last resort; the framework flag is set exactly when a rewritten vector was accepted |
| Flags.FlagParser.ParseFlags | src/snap/flags.cc:437-442 | the same for any argument vector, the empty one included |
| Flags.RunIsFirstAccepted | src/snap/flags.cc:306-328 | that run stops at the first vector not refused, after all before it were |
| Flags.VectorLength | src/snap/flags.cc:356-357 | each kept key counts for two arguments, anything else in the JSON for none |
| ConfigPolicies.BuildKey | src/snap/config.cc:129-138 | the key is the parts joined with dots |
| ConfigPolicies.KeySplitsBack | src/snap/config.cc:129-138 | cutting a key at its dots gives the namespace back if and only if it has parts and none contains a dot |
| ConfigPolicies.KeysCollide | src/snap/config.cc:129-138 | two namespaces share a key if and only if their pieces, parts cut at their own dots, are the same |
| ConfigPolicies.KeyIsItsOwn | src/snap/config.cc:129-138 | no other namespace has the same key if and only if the namespace is one part, not empty and without a dot |
| ConfigPolicies.RuleSurvives | src/snap/config.cc:39-58 | a rule survives a rule added after it if and only if the pieces of their namespaces differ |
| ConfigPolicies.LastRuleWins | src/snap/config.cc:39-58 | after any calls of add_rule the last rule for a key is in force, and other keys keep theirs |
| ConfigPolicies.ConfigPolicy.AddStringRule | src/snap/config.cc:39-44 | overwrites the entry of the joined namespace |
| ConfigPolicies.ConfigPolicy.AddIntRule | src/snap/config.cc:46-51 | overwrites the entry of the joined namespace |
| ConfigPolicies.ConfigPolicy.AddBoolRule | src/snap/config.cc:53-58 | overwrites the entry of the joined namespace |
| ConfigPolicies.FillDefaults | src/snap/config.cc:99-107 | the nested loops offer every rule once, in the order the maps iterate |
| ConfigPolicies.FirstDefaultWins | src/snap/config.cc:99-107 | a key keeps its value or gets the default of the first namespace visited that has one |
| ConfigPolicies.DefaultsFillTheGaps | src/snap/config.cc:99-127 | configured values are kept and exactly the missing keys with a default are added |
| ConfigPolicies.DefaultsAreIdempotent | src/snap/config.cc:99-127 | applying again changes nothing, even in another iteration order |
| ConfigPolicies.OrderMattersUnlessDefaultsAgree | src/snap/config.cc:99-127 | the result is the same for all iteration orders if and only if the defaults of every missing key agree |
| ConfigPolicies.IntDefaultSurvives | src/snap/config.cc:79-81 | a default integer keeps its lower 32 bits, and so arrives unchanged if and only if it fits them |
| ConfigPolicies.Config.ApplyDefaults | src/snap/config.cc:99-127 | all three kinds of values are filled independently |
| MetricTimes.MetricWrapper.SetTimestamp | src/snap/metric.cc:255-261 | the timestamp, created if missing, holds the two counters; nothing else of the metric changes |
| MetricTimes.MetricWrapper.SetLastAdvertised | src/snap/metric.cc:263-269 | the same for the last-advertised time |
| MetricTimes.MetricWrapper.Timestamp | src/snap/metric.cc:139-151 | the sum of the two counters, or none where 64-bit arithmetic overflows |
| MetricTimes.InstantRebuilt | src/snap/metric.cc:139-151 | the counters are the seconds and the nanoseconds below 1000000000 of the count modulo 2^64, and the instant is rebuilt exactly if and only if it is not before the epoch |
| MetricTimes.AnyTimeRead | src/snap/metric.cc:139-151 | any two counters, negative and overlong nanoseconds included, are summed as they are, or none if a step of the sum leaves 64 bits |
| MetricTimes.PairOrderIsTimeOrder | src/snap/metric.cc:255-261 | comparing the pairs compares the instants |
| MetricTimes.TimeRoundTrip | src/snap/rpc/plugin.pb.cc:2296-2370 | any Time message is read back as it was |
| MetricTimes.InstantSurvivesTheWire | src/snap/metric.cc:139-151 | an instant set on one side and read on the other is the same instant |

## Left out

- gRPC, TLS, the HTTP stand-alone server, logging and diagnostics: I/O. `Write` appends to a log and its result is ignored as in the code, `Read` delivers any request, cancellation is a flag that stays up, the clock may take any value at any step.
- Threads interleave at the granularity of the steps: one channel operation, one append, one write or one flag at a time, with the guarded bodies of `stream_it` and `drain_metrics` atomic. Data races below that, and mutual exclusion between those two bodies, which the code tests for but does not enforce, are not modelled.
- Only one `StreamMetrics` call on a service object: channels are never reopened. The public channel helpers of the header are not used from outside.
- No bound on flush latency is claimed, since `get` waits without a timeout; metrics still buffered at the cancellation are not flushed, and conservation counts them.
- A waiting `get` is modelled as enabled once the channel is ready: the mutex, the condition variable and spurious wake-ups are not.
- The primitive layer of Protocol Buffers is not part of the repository: varints, tags, lengths, skipped groups and map entries follow the Encoding specification. Lengths of 2^31 and more are refused. The option parser and the JSON reader are parameters.
- MetricMessages.MetricMessage.MergePartialFromCodedStream: says nothing about the half-read message after a failure; the same goes for the other parsers, whose callers drop it.
- MetricMessages.MetricMessage.MergeFrom: asks that the two messages share no sub-message, which ownership gives in the code.
- RandoPlugin.Rando.StreamIt: one turn of the loop, taken as a single step.
- StreamCollector.StreamCollectorImpl.MetricSendTurn: nothing else moves during the turn, so the limits stay as they are; the state machine has them change at any step.
- StreamCollector.StreamCollectorImpl.PutSendTurn: written against the plugin Rando; `SoloPutTurn` and the state machine take any plugin.
- CodedStreams.CodedInputStream.PushLimit: refuses a length that reaches beyond the enclosing message, as the Encoding specification has it; a library that reads on to the enclosing limit is not modelled.
- Recursion limits, arenas, reflection, `Swap`, unknown enum values, and use of a cached size after the message changed: the serializers require the sizes that `ByteSize` leaves behind.
- MetricsReply, ErrReply and CollectReply are modelled on values: round trip and merge, not the classes that update them in place. Other message types of the generated file have the same shape.
- PeerView.PeerReadsReply: takes the bit patterns of floating-point data as a parameter that keeps whole numbers of up to 24 (float) and 53 (double) bits apart; other floating-point values do not occur in the pipeline's metrics.
- The iteration order of a hash map is a parameter of the methods that walk it; `std::sort` is a function whose result is proved ascending and complete.
- Sizes are unbounded naturals; exactness is stated for messages below 2^31 bytes, as the code's `int` requires.
- Floating-point values travel as their bit patterns.
- Rando's namespaces of fewer than five elements, whose fifth element is undefined in the code, read as an unnamed type; the random value and the clock readings are parameters, and one random value serves a whole batch as in the code.
- Strings of the flag parser, the config policies and the pipeline are sequences of characters, which PeerView encodes as UTF-8; the codec works on bytes and checks them.
- The state the option parser keeps between attempts is modelled only through the list of what it was given; the configuration file, and the process exit when help is asked for beyond its answer, are not.
- Minimum and maximum of policy rules and required keys, which `apply_defaults` does not look at; float values, which have no rules.
- Coherence of the tag and namespace caches of `Plugin::Metric`, and the lifetime of `Config` references: C++ memory management.
- The unary proxies, `Meta` and the option tables: wrappers with only easy members.
