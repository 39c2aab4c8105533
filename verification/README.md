# A verified model of the SIP proxy and of the arithmetic it builds on

The repository is a VoWiFi call session control function: a stateful SIP proxy on top of PJSIP. This
project models, in Dafny, the four places where its own text contains logic, and proves what they
keep.

**Transactions** (`CSCF/CSCF/module_proxy.c`). Every forwarded request has a client transaction (UAC)
and a server transaction (UAS), tied by two back pointers. The state callback relays responses, clears
pointers and passes termination on, and it re-enters itself: sending on the UAS or terminating it from
the UAC's callback runs the UAS's own callback inside.

- `TransactionModel.dfy` gives the callbacks, the request handler and the CANCEL handler as functions
  from one world to the next. Following a bad pointer is an explicit `Fail`. Everything the PJSIP
  transaction layer decides is a parameter: the next state of a transaction, its status code, whether a
  response can be copied, whether a send succeeds. The layer is bound only by what `Enabled` says:
  states go forward, a terminated transaction reports no more events, and a transaction is destroyed by
  a step of its own after it has terminated.
- `Pairing.dfy` and `Steps.dfy` find the flat effect of each re-entrant step and the exact inputs on
  which it goes wrong. `Runs.dfy` and `Conservation.dfy` carry this over whole runs.
- `Proxy.dfy` is the same code on objects with pointers that are cleared in place. Each method is
  proved equal to its function, so the theorems about runs are theorems about it.

Three events, and no others, make a handler follow a bad pointer: a response for a UAC whose UAS has
terminated (NULL is passed to the send at line 616), and, for a UAS that still points at a destroyed
UAC, its termination and a CANCEL that finds it. The last two need a pointer that was left behind.
Pointers to destroyed transactions come about in three ways, and each is proved to happen in a concrete
run:

- the callback returns early (lines 569, 579, 588) on a response that terminates the UAC, so that the
  UAS is never told, and the UAC is destroyed;
- the UAS terminates on its own or while the response is being sent. Its callback clears the UAC's
  pointer (line 542) but not its own, and the UAC may then be destroyed first;
- the UAC terminates on anything but a response. Only the UAS's pointer is cleared (line 634), the UAC
  keeps its own, and the UAS may then be destroyed first. Nothing follows that pointer any more.

So "no transaction that still exists points at a destroyed one" is false of the code. `RunsDangle` says
of which runs it is true: of those that destroy no transaction while its mate still exists and was not
told to forget it. Most such pointers are never followed. `RunsExpose` says exactly when one can be: at
no point of a run can any event touch a destroyed transaction if and only if no UAC is ever destroyed
while its UAS still points at it and has not terminated or, being of an INVITE, can still be found by a
CANCEL.

**Routing** (the same file). `Routing.dfy` models route preprocessing and target calculation (sections
16.4 and 16.5 of RFC 3261) in place on a message whose headers are a sequence. `Preprocess` says what
becomes of the Request-URI and the Route values alone, and the theorems are about it. Section 16.4 asks
that an maddr naming the proxy be stripped. The code stops before that step when the request is for the
proxy and has no Route (line 122), so such a request is sent back to the proxy itself;
`ForwardedRequestLeadsHome` proves that this is the only such case. For the maddr the code takes its own
port, not the one the request came in on; the model follows the code.

**Integer root and statistics** (`pj/math.h`). `IntegerRoot.dfy` models `pj_isqrt` with its seed and its
stopping test. The header calls the result the square root. It is the floor of it, except on numbers one
below a square where some iterate lands one above the root; `Overshoots` gives this condition by a
recurrence on the distances alone, and 168 is an instance. `Statistics.dfy` and `Samples.dfy` model the
fixed-point branch of `pj_math_stat`. Division and remainder go toward zero, as in C.

**Timestamps** (`pj/os.h`) as two 32-bit halves, against plain 64-bit arithmetic. Line 1329 spells the
type `pj_int32`; it is read as `pj_int32_t`.

**Character sets** (`pjlib-util/scanner_cis_bitwise.h`): 32 sets as bit planes of one array, against one
array of flags for each set (`scanner_cis_uint.h`). Bitwise operators are defined on unsigned integers
bit by bit.

## Model

| member | source | states |
|---|---|---|
| Proxy.TransactionUser.OnTsxState | CSCF/CSCF/module_proxy.c:529-676 | The re-entrant state callback, on objects, has exactly the specified effect, and its nesting ends: a UAC's callback can enter a UAS's, which enters none |
| Proxy.TransactionUser.OnUacTerminated | CSCF/CSCF/module_proxy.c:625-675 | The part that takes the UAS along does so in place as specified, re-reading the pointer that the nested callback may have cleared |
| Proxy.TransactionUser.OnRequest | CSCF/CSCF/module_proxy.c:322-397 | A forwarded request creates, ties and answers its two transactions as specified, on every path: 500 on the server transaction if sending failed, else 100 exactly for an INVITE, and a stateless 500 if a transaction could not be created |
| Proxy.TransactionUser.OnCancel | CSCF/CSCF/module_proxy.c:406-443 | The CANCEL handler locks, builds and unlocks as specified, on every path, and is answered 481 without an INVITE and 200 with one |
| Proxy.TransactionUser.Handle | CSCF/CSCF/module_proxy.c:254-676 | From any reachable heap, any event that is not one of the three faulty ones is handled without a bad pointer, keeps the invariant, and keeps pairs healthy exactly if no terminating response is lost |
| Pairing.UacEventIsFlat | CSCF/CSCF/module_proxy.c:549-675 | Nested sends, terminations and callbacks amount to one flat update of the pair; the only fault is a response whose UAS has terminated |
| Pairing.UasEventIsFlat | CSCF/CSCF/module_proxy.c:534-547 | A UAS event updates the pair; it faults exactly if the UAS terminates while it still points at a destroyed UAC |
| Pairing.CancelIsFlat | CSCF/CSCF/module_proxy.c:417-443 | A CANCEL is built exactly for the paired UAC with status below 200, under both locks, both of which end as they began; it faults exactly on a destroyed UAC |
| Pairing.FlatUacKeeps | CSCF/CSCF/module_proxy.c:549-675 | A UAC event leaves the pair bound, except that a dropped terminating response leaves it lost |
| Pairing.FlatUasKeeps | CSCF/CSCF/module_proxy.c:534-547 | A UAS event keeps a bound pair bound |
| Steps.ArriveAdds | CSCF/CSCF/module_proxy.c:322-397 | A new request never goes wrong and touches no other transaction; it adds nothing without a UAC, one terminated with 500 without a UAS, and else one bound pair with exactly one 500 sent after a failed send, one 100 for an INVITE, and nothing otherwise |
| Steps.StepVerdict | CSCF/CSCF/module_proxy.c:254-676 | Every step from a reachable world fails exactly on the three faulty events (so it never uses a terminated UAS and never misses the last message for a 408), keeps the invariant, and keeps health exactly if it loses no terminating response |
| Steps.TerminationPropagates | CSCF/CSCF/module_proxy.c:616-675 | A linked UAC that terminates on a response, or on a timer for a non-INVITE, terminates its UAS; on a timer for an INVITE a 408 is sent on it; always the back pointer is cleared or the UAS has terminated |
| Steps.OtherEventsOnlyRelay | CSCF/CSCF/module_proxy.c:549-629 | Every other UAC event relays the response if there is one that is not dropped, and changes nothing else but state, status, and the pointer to a UAS that this terminates |
| Steps.ServerEventsOnlyUnlink | CSCF/CSCF/module_proxy.c:534-547 | A UAS event moves the UAS, and clears the UAC's pointer exactly if the UAS terminates while it points there |
| Steps.StepTouchesNoOther | CSCF/CSCF/module_proxy.c:254-676 | No step changes a transaction outside the pair it is about, and only a CANCEL from upstream makes one downstream |
| Runs.RunVerdict | CSCF/CSCF/module_proxy.c:254-676 | Any run goes through exactly if no event in it is faulty; then the invariant holds, states only went forward, links were only cleared, and pairs stay healthy if nothing was lost |
| Runs.StepGrows | CSCF/CSCF/module_proxy.c:254-676 | A step only moves transactions forward, only clears existing links, and destroys nothing but what a destruction names |
| Runs.LivePointersAreMutual | CSCF/CSCF/module_proxy.c:351-365 | In a healthy world a transaction that has not terminated points only at one that has not terminated and points back |
| Runs.DanglingComesFromDestroy | CSCF/CSCF/module_proxy.c:539-543 | A dangling pointer was there before the step, or the step destroyed its target |
| Runs.StepDangles | CSCF/CSCF/module_proxy.c:539-543 | A step leaves a dangling pointer exactly if it destroys a transaction whose mate still exists and was never told to forget it |
| Runs.RunsDangle | CSCF/CSCF/module_proxy.c:534-675 | In every run no existing transaction ever points at a destroyed one exactly if no destruction abandons a mate that still points there |
| Runs.SafeIsSecure | CSCF/CSCF/module_proxy.c:425-547 | No next event can touch a destroyed transaction exactly if no UAS that has not terminated, or is of an INVITE, points at a destroyed UAC; the one fault left is then the NULL at line 616 |
| Runs.StepExposes | CSCF/CSCF/module_proxy.c:425-675 | A step breaks that condition exactly if it destroys a UAC under such a UAS that still points at it |
| Runs.RunsExpose | CSCF/CSCF/module_proxy.c:254-676 | In every run, no event that the layer could send at any point would touch a destroyed transaction, exactly if no such destruction happens |
| Runs.UnexposedRunsTouchNoDeadTransaction | CSCF/CSCF/module_proxy.c:534-675 | Without such a destruction a run goes through, or stops at the NULL of line 616 |
| Runs.RelaysStayInTheirCall | CSCF/CSCF/module_proxy.c:351-365 | In every run every relayed response came from the UAC of the same request, pointers lead only to the mate, and no lock is left held |
| Runs.CancelsAreSound | CSCF/CSCF/module_proxy.c:425-443 | In every run every CANCEL went to the paired UAC, which existed, had a status below 200, and was locked with its UAS |
| Runs.DroppedResponseGoesWrong | CSCF/CSCF/module_proxy.c:575-589 | The run in which a dropped 200 makes the UAS follow its pointer to the destroyed UAC |
| Runs.LateCancelGoesWrong | CSCF/CSCF/module_proxy.c:425-426 | The run in which a CANCEL finds a terminated UAS whose UAC is already destroyed |
| Runs.StrandedResponseGoesWrong | CSCF/CSCF/module_proxy.c:616 | The run in which a response arrives after its UAS has terminated, and NULL is sent on |
| Runs.TimedOutCallDangles | CSCF/CSCF/module_proxy.c:632-656 | The run in which a timed-out UAC keeps a pointer to its destroyed UAS, harmlessly |
| Conservation.ResponsesAreConserved | CSCF/CSCF/module_proxy.c:554-616 | Over any run, the responses relayed on a UAS are exactly those delivered to its UAC and not dropped, in order, none lost or doubled |
| Routing.IsUriLocal | CSCF/CSCF/module_proxy.c:6-21 | The loop finds whether some name of the proxy has this host, ignoring case, and this port, an absent port meaning 5060 |
| Routing.LocalIsRespelledName | CSCF/CSCF/module_proxy.c:8-20 | A URI is the proxy's own exactly if its host is one of the names up to the case of letters, at that name's port, or without a port where the name has 5060 |
| Routing.OtherHostIsNotLocal | CSCF/CSCF/module_proxy.c:10-12 | A host that differs from every name of its length in some character, by more than case, is not local |
| Routing.RespelledNameIsLocal | CSCF/CSCF/module_proxy.c:10-12 | A name in any mix of cases is local at its own port |
| Routing.AbsentPortIs5060 | CSCF/CSCF/module_proxy.c:10-11 | A URI without a port is local exactly if it is with port 5060, unless a name has port 0 |
| Routing.Message.LastRoute | CSCF/CSCF/module_proxy.c:118-131 | The scan ends at the last Route header, whatever stands between |
| Routing.Message.TakeStrictTarget | CSCF/CSCF/module_proxy.c:113-152 | For a strict-routed request the last Route value becomes the Request-URI and leaves the list; otherwise nothing changes |
| Routing.Message.StripOwnMaddr | CSCF/CSCF/module_proxy.c:163-174 | Port, transport and an maddr that names the proxy are stripped together |
| Routing.Message.EraseFirst | CSCF/CSCF/module_proxy.c:179-183 | The first Route header goes exactly if it is the proxy's own; order is kept |
| Routing.Message.ProcessRouting | CSCF/CSCF/module_proxy.c:96-186 | In place, the Request-URI and the Route values become what preprocessing asks for; other headers stay, and the rest keeps its order |
| Routing.TargetIsLastRouteExactlyIfStrict | CSCF/CSCF/module_proxy.c:113-183 | The last Route value becomes the target exactly if the Request-URI is local and that value has no lr; in every case, what the target and the Route values are afterwards |
| Routing.LastRouteLeavesExactlyIfStrict | CSCF/CSCF/module_proxy.c:137-151 | The same, seen from the number of Route values |
| Routing.StrippingByField | CSCF/CSCF/module_proxy.c:163-174 | The maddr, the port and the transport go, together, exactly if the maddr names the proxy at its own port; user, host and lr always stay |
| Routing.Instances | CSCF/CSCF/module_proxy.c:6-183 | A request of each kind at a given proxy, with its outcome |
| Routing.Message.CalculateTarget | CSCF/CSCF/module_proxy.c:41-88 | A request with any maddr is forwarded, one without exactly if it is not for the proxy, with the Record-Route value of the proxy's first name in front if configured; else it is answered 404 unless it is an ACK |
| Routing.Message.Prepare | CSCF/CSCF/module_proxy.c:287-301 | Both in turn: what is forwarded, with which routes, that a 404 (nothing for an ACK) is the answer exactly without an maddr and for the proxy, and that a forwarded request leads back to the proxy exactly in the one case the code misses |
| Routing.ErasingTheLast | CSCF/CSCF/module_proxy.c:148-150 | Erasing the last Route header removes the last Route value and nothing else |
| Routing.OnlyTheProxyLeavesThePath | CSCF/CSCF/module_proxy.c:113-183 | The hops still to visit lose nothing but the proxy itself, from the front, exactly if it stands there; the others keep their order and the target loses at most its own maddr |
| Routing.StrictAndLooseAgree | CSCF/CSCF/module_proxy.c:113-183 | A strict and a loose router deliver the same request, exactly if the next hop is not the proxy again |
| Routing.RecordedRouteComesBack | CSCF/CSCF/module_proxy.c:22-39 | The Record-Route value the proxy inserts is recognised and taken out again when it returns, loose or strict, and the rest of the request is untouched |
| Routing.ForwardedRequestLeadsHome | CSCF/CSCF/module_proxy.c:53-174 | A forwarded Request-URI leads back to the proxy exactly if the request was for the proxy, without a Route, with an maddr of its own |
| Routing.OwnMaddrCanSurvive | CSCF/CSCF/module_proxy.c:120-123 | An instance of that case |
| IntegerRoot.Isqrt | CSCF/include/pj/math.h:85-103 | The result r has r*r <= i+1 and i < (r+1)*(r+1), is the floor of the root plus one exactly on `Overshoots`, and takes at most three rounds more than the exponent of the seed; no round divides by zero, both sums in every round fit 32 bits, and the last round is the first that the stopping test accepts |
| IntegerRoot.Seed | CSCF/include/pj/math.h:89-94 | The shifting loop finds two to half the bits of the input |
| IntegerRoot.SeedBounds | CSCF/include/pj/math.h:89-94 | The square of the seed lies within a factor of four below the input |
| IntegerRoot.NextHalvesTheGap | CSCF/include/pj/math.h:98-99 | Above the root, a round at least halves the distance to it |
| IntegerRoot.NextIsNotBelow | CSCF/include/pj/math.h:98-99 | A round never ends below the root |
| IntegerRoot.StopBounds | CSCF/include/pj/math.h:97-100 | Whatever the stopping test accepts is the root or, one below a square, one more |
| IntegerRoot.ErrorAfterRound | CSCF/include/pj/math.h:98-99 | One below a square the distance from its root follows an exact recurrence |
| IntegerRoot.OvershootsOn168 | CSCF/include/pj/math.h:85-103 | On 168 the floor is 12 and the result is one more |
| Statistics.MathStat.Update | CSCF/include/pj/math.h:121-161 | An update changes the fields in place as specified, on unbounded integers |
| Statistics.MathStat.GetStdDev | CSCF/include/pj/math.h:171-175 | The deviation is the integer root of the stored sum over the count, rounded toward zero and cast to 32 bits; 0 without samples |
| Statistics.MathStat.SetStdDev | CSCF/include/pj/math.h:186-191 | The stored sum is the product modulo 2^32; no samples count as one |
| Statistics.StdDevComesBack | CSCF/include/pj/math.h:171-191 | The deviation that was set comes back exactly if its square times the count fits into 32 bits |
| Samples.DriftConserves | CSCF/include/pj/math.h:149-158 | Mean times count plus residue absorbs exactly the new sample, and the residue stays below the count |
| Samples.DriftIsDetermined | CSCF/include/pj/math.h:149-158 | Rounding toward zero and the carry in one: mean and residue after an update are the only pair that conserves the sum with the residue in a given window of n values |
| Samples.DriftMirrors | CSCF/include/pj/math.h:149-158 | An update rounds without a preferred direction: with signs changed it does the same with signs changed |
| Samples.FeedMirrors | CSCF/include/pj/math.h:121-161 | Any samples, negated, give the negated mean, residue and last sample, the extremes exchanged, and the same squared sum |
| Samples.DriftGoesTowardTheSample | CSCF/include/pj/math.h:149-158 | The mean moves toward the sample and never past it, the correction by the residue included |
| Samples.UpdateIsExact | CSCF/include/pj/math.h:121-161 | An update keeps sum, count and extremes exact, moves the mean between its old value and the sample, and never lowers the squared sum |
| Samples.FeedIsExact | CSCF/include/pj/math.h:121-161 | After any samples the mean with its residue is their exact sum, the extremes are exact with the mean between them, and the squared sum is not negative |
| Samples.MeanError | CSCF/include/pj/math.h:149-158 | The integer mean is less than one away from the true mean |
| Samples.Welford | CSCF/include/pj/math.h:149-160 | A sample adds to the exact squared deviations the product of its distances from the old and the new true mean |
| Samples.UpdateAdds | CSCF/include/pj/math.h:160 | An update adds to the squared sum exactly the product of the distances from the old and the new integer mean |
| Samples.SpreadIsTracked | CSCF/include/pj/math.h:148-160 | The fixed-point squared sum is within (n-1)*(2*(max-min)+1) of the exact sum of squared deviations |
| Samples.StdDevIsTracked | CSCF/include/pj/math.h:148-175 | From samples to result: the exact sum of squared deviations lies between dev*dev*n and (dev+1)*(dev+1)*n, up to that error bound and one n for the root, if the variance fits 32 bits |
| Samples.UpdateFits | CSCF/include/pj/math.h:126-160 | For 32-bit samples within 46340 of each other, at most 2^30 of them, no intermediate value overflows an int |
| Timestamps.Timestamp.Add | CSCF/include/pj/os.h:1248-1259 | Adding halves with a carry is 64-bit addition, also of a timestamp to itself |
| Timestamps.Timestamp.Add32 | CSCF/include/pj/os.h:1266-1276 | Adding 32 bits with a carry is 64-bit addition |
| Timestamps.Timestamp.Sub | CSCF/include/pj/os.h:1283-1296 | Subtracting halves with a borrow is 64-bit subtraction, also of a timestamp from itself |
| Timestamps.Timestamp.Sub32 | CSCF/include/pj/os.h:1303-1315 | Subtracting 32 bits with a borrow is 64-bit subtraction |
| Timestamps.Compare | CSCF/include/pj/os.h:1221-1240 | Comparing halves is comparing the numbers |
| Timestamps.Differences | CSCF/include/pj/os.h:1321-1332 | Both branches give the same 32-bit difference, which is the true one exactly if that fits |
| Timestamps.OnlyTheResultWraps | CSCF/include/pj/os.h:1248-1316 | After any sequence of additions and subtractions on any timestamps, each is the exact result modulo 2^64 |
| Timestamps.Apply | CSCF/include/pj/os.h:1248-1316 | An operation on a table of timestamps, aliased or not, is the 64-bit operation on the table of numbers |
| Timestamps.ApplyAll | CSCF/include/pj/os.h:1248-1316 | Any sequence of operations on timestamp objects, aliased or not, leaves in each the exact result modulo 2^64 |
| CharSets.BitSet.Set | CSCF/include/pjlib-util/scanner_cis_bitwise.h:73 | Setting ors the mask into the shared element |
| CharSets.BitSet.Clear | CSCF/include/pjlib-util/scanner_cis_bitwise.h:82 | Clearing ands the complement of the mask into the shared element |
| CharSets.BitSet.IsSet | CSCF/include/pjlib-util/scanner_cis_bitwise.h:91 | The masked element is non-zero exactly if the bit of the set is there |
| CharSets.FlagSet.Set | CSCF/include/pjlib-util/scanner_cis_uint.h:60 | Setting stores 1 in the set's own array |
| CharSets.FlagSet.Clear | CSCF/include/pjlib-util/scanner_cis_uint.h:69 | Clearing stores 0 in the set's own array |
| CharSets.MaskTestsBit | CSCF/include/pjlib-util/scanner_cis_bitwise.h:91 | Masking leaves something exactly if the bit is there |
| CharSets.StepAgrees | CSCF/include/pjlib-util/scanner_cis_bitwise.h:73-91 | An operation on one set does in the shared buffer what it does on the separate array, and nothing to any other set |
| CharSets.RunsAgree | CSCF/include/pjlib-util/scanner_cis_bitwise.h:45-91 | After any interleaving of operations on up to 32 sets the two forms still agree on every set and character |
| CharSets.ApplyShared | CSCF/include/pjlib-util/scanner_cis_bitwise.h:45-82 | Any sequence of operations through 32 sets on one shared buffer does what the specification of the planes says |
| CharSets.ApplySeparate | CSCF/include/pjlib-util/scanner_cis_uint.h:60-69 | The same on 32 sets with an array each, one array changing at a time |
| CharSets.ApplyBoth | CSCF/include/pjlib-util/scanner_cis_bitwise.h:45-91 | The same operations on both forms as objects, once they agree, leave them in agreement |

## Left out

- The PJSIP library behind the declarations: timers, retransmission, parsing, transports, Via and Max-Forwards handling are the environment of the model. That a send records its message as the last one, which the 408 reuses, is taken from the field's description.
- Threads: an outermost callback with everything nested inside it is one step, so races between the status test at line 426 and the lock at line 429 are not modelled.
- Steps.StepVerdict: the environment is assumed to report no event on a transaction that has terminated, and to find INVITE server transactions for a CANCEL until they are destroyed.
- A CANCEL that cannot be built (line 431 ignores the result), and the address that a response is sent to (lines 591-613).
- The checks before a request is cloned (lines 187-249), stateless forwarding of ACK and of stray responses (lines 311-320 and 456-511): one test and one reply each, with no state.
- Objects behind URIs: a Request-URI taken from a Route header is a copy of its value, so that the erased header's own URI is not changed along with it. The 128-byte buffer for the Record-Route URI is not modelled.
- Statistics.MathStat.Update: works on unbounded integers; `Samples.UpdateFits` gives a range of samples for which the machine's agree.
- The floating-point branch of the statistics, and the 32-bit form of the squared sum.
- Signs in the character sets: the source shifts a signed one, so that the set 31 uses the sign bit, and casts a possibly signed character to its index. Elements and characters are unsigned here.
- The use mask of the shared character buffer, which no macro shown here touches.
- Registrar, HSS link, RTP relay, logging and start-up, and the C++ wrappers: they pass data on to functions that are only declared.
