# Sample-exact arithmetic of VGMPlay and game-music-emu

This project models the parts of the two players that produce a stream of samples piece by piece and
must nevertheless agree with a simple definition of the whole stream. Each part is a class with the
source's own state and loops, proved against functions that know nothing of buffers and calls; the
properties the source promises are then proved of those functions, over all inputs and whole runs.

| file | what it models |
|---|---|
| `Resampler.dfy` | the fixed-point chip resampler of VGMPlay, up and down |
| `VgmPlayer.dfy`, `VgmBank.dfy`, `Gcd.dfy` | the command interpreter, seeking, termination, what its commands say and the sample bank, and the rate fractions |
| `DataBlock.dfy`, `DataBlockPacking.dfy` | compressed data blocks (VGM 1.71, section "Data blocks") and the packing they are made by |
| `OplCache.dfy` | the shadow registers of the OPL chip and the skip mode |
| `MusicEmu.dfy`, `Fade.dfy` | silence look-ahead, seeking and fading |
| `BlipKernel.dfy`, `BlipBuffer.dfy` | the band-limited synthesis buffer and its impulse table |
| `NesDmc.dfy`, `NesDmcSound.dfy`, `NesFrames.dfy` | the NES delta-modulation channel with its predictions, the sound of its samples, and the frame sequencer |
| `Oscillator.dfy`, `ToneChips.dfy` | skipping time by division: NES square, SCC, FME-7 |
| `AyApu.dfy`, `AySound.dfy`, `AyChip.dfy` | the interleaved generators and the envelope of the AY-3-8910, what they sound like, and the chip with its registers |
| `DualResampler.dfy`, `FirResampler.dfy` | frame buffering and the FIR resampler |
| `SapCpu.dfy` | the relative clock of the Atari CPU |
| `Arith.dfy`, `Timer.dfy` | machine arithmetic and timer periods shared by the rest |

Integers are mathematical. Wrap-around, truncating division, masks and 16-bit casts are written out
where the source relies on them; elsewhere the preconditions keep values in range. Chips, emulators and
CPU memory that deliver samples or bytes are functions from a position to the value there: "the next n
elements of an endless sequence". Output goes to ghost logs of (time, step) pairs where the source calls
a synthesizer.

Loop and specification share the small functions that a step is made of. What the output is, is therefore
said once more without them: in terms of register bits, bytes of a file, sums and inequalities
(`Resampler.ChipAudio.FillBuffer`, `MusicEmu.Player.Play`, `AyChip.Apu.RunUntil`, the modules `NesDmcSound`,
`AySound` and `VgmBank`, `DataBlockPacking.BlockRoundTrip`, `Oscillator.RunIsWave`, `SapCpu.ClocksAddUp`).

Where the source and the tempting claim differ, the source was followed and the exact condition proved:

- a phase of the impulse table sums to the kernel unit if and only if its correction fits 16 bits
  (`BlipKernel.PhaseExact`, and `CorrectionOverflows` for one that does not);
- a frame of `count_clocks` length is exact if and only if a clock is no longer than a sample
  (`BlipBuffer.ExactFrame`);
- `last_read` is the least time with its count if and only if the count is not 0; without reads it is
  the time passed in (`NesDmc.LastReadLeast`);
- VGM interpretation comes back from the start of playback for every number of samples if and only if
  the file does not hang: it does when it loops for good and a pass waits for no more than the rate
  conversion rounds away; at 1:1 that is no sample at all (`VgmPlayer.TerminatesExactly`, `OneToOne`,
  and `EmptyLoopHangs` for a file that hangs);
- a track that ends by silence has the limit of quiet samples behind it if and only if nothing loud is
  among the samples not examined after the last sound noted (`MusicEmu.Player.RuleExact`). Not examined
  are what a skip runs, the block waiting at the start, and the first sample of every stretch
  (`MusicEmu.Player.Play`, `Skip`, `StartTrack`); `MusicEmu.SkipOverSound` is a skip for which it fails;
- the envelope of the AY chip stays in its wave table if and only if the byte written to register 13 is
  below 16 or has bit 3 clear (`AyApu.WaveInTable`, and `AyApu.WaveBeyondTable` for 0x18);
- the fast release of a note is held back by the cache if the register got the fastest rate while
  skipping (`OplCache.Cache.FastRelease`, and `OplCache.HeldBack` for a case);
- registers that `StopSkipping` does not send are coherent again exactly when skipping left them alone
  or their next write is forced (`OplCache.Cache.StopSkipping`, and `OplCache.LeftIncoherent` for a case);
- the frame interrupt is announced 2 clocks, later 3 clocks, after the flag goes up
  (`NesFrames.AnnouncementLate`);
- a fade ends after eight steps and 2^-14 of a step, which for steps of up to 2^14 blocks is the block
  after the eighth step (`Fade.FadeEndsExactly`, `Fade.FadeEnds`);
- stopping the Atari CPU on the way changes nothing if and only if it does not stop with a late CLI or
  PLP (`SapCpu.RunSplit`); no code of the repository tells this CPU of an interrupt, so only a caller of
  its public `set_irq_time` can bring that about (`SapCpu.NoIrqNoLoss`).

## Model

| member | source | states |
|---|---|---|
| Resampler.ChipAudio.SetupResampler | app/src/main/cpp/VGMPlay/VGMPlay.c:5381-5414 | a chip slower, as fast or faster than the output gets the upsampling, copying or downsampling mode, and starts in the state that mode keeps; the upsampler holds its first sample already |
| Resampler.ChipAudio.Upsample | app/src/main/cpp/VGMPlay/VGMPlay.c:5551-5610 | the n-th call adds the linear interpolation of the whole chip stream at position floor(2048 n rate / output rate), times the volume; on a sample boundary the next sample does not matter; the chip has been asked for exactly one sample more than the position's ceiling |
| Resampler.ChipAudio.UpFetch | app/src/main/cpp/VGMPlay/VGMPlay.c:5552-5589 | the scratch buffer holds the stream around the position, and the 32-bit position arithmetic has not wrapped |
| Resampler.ChipAudio.UpLoad | app/src/main/cpp/VGMPlay/VGMPlay.c:5568-5574 | the two carried samples are followed by the chip's next one, if one is due |
| Resampler.ChipAudio.UpMix | app/src/main/cpp/VGMPlay/VGMPlay.c:5590-5608 | the interpolation uses only samples already generated, and carries the two it used |
| Resampler.ChipAudio.UpAdvance | app/src/main/cpp/VGMPlay/VGMPlay.c:5609-5692 | counting the output and rebasing keep the invariant |
| Resampler.ChipAudio.Downsample | app/src/main/cpp/VGMPlay/VGMPlay.c:5622-5692 | the n-th call adds the exact mean of the whole stream over the window of fixed length that starts at the n-th position; afterwards the chip has been asked for exactly ceil(position of output n + 1) samples |
| Resampler.ChipAudio.DownFetch | app/src/main/cpp/VGMPlay/VGMPlay.c:5623-5641 | the buffer holds the stream from the carried sample on, which is right whenever the window starts inside it |
| Resampler.ChipAudio.DownWindow | app/src/main/cpp/VGMPlay/VGMPlay.c:5623-5679 | the sum is the integral of the chip stream over the window and the weight is its length; the sample carried on is the one the next window may start in |
| Resampler.ChipAudio.MixWindow | app/src/main/cpp/VGMPlay/VGMPlay.c:5643-5672 | the two partial samples and the whole ones in between weigh together exactly the window, each tick once |
| Resampler.ChipAudio.Rebase | app/src/main/cpp/VGMPlay/VGMPlay.c:5688-5692 | once a second all counters move back together by whole seconds |
| Resampler.ChipAudio.StreamUpdate | app/src/main/cpp/VGMPlay/VGMPlay.c:5574 | the chip delivers its next samples, in order |
| Resampler.ChipAudio.FillBuffer | app/src/main/cpp/VGMPlay/VGMPlay.c:5804-5812 | from any reachable state and over any number of calls: the left of output k is what the chip's left samples weigh in its window, or between its two neighbours, times the volume, divided by the weight, cut toward zero and wrapped to 32 bits; the right is that of the right samples; no drift, no dependence on how the calls were grouped |
| Resampler.PosShift | app/src/main/cpp/VGMPlay/VGMPlay.c:5688-5692 | rebasing by a second moves positions by whole samples, without rounding |
| Resampler.WindowsTile | app/src/main/cpp/VGMPlay/VGMPlay.c:5633-5641 | successive windows do not overlap and leave a gap of at most 1/2048 sample |
| Resampler.GapsPerSecond | app/src/main/cpp/VGMPlay/VGMPlay.c:5633-5641 | the gaps of one second add up to (2048 rate) mod output rate ticks |
| Resampler.PosRange | app/src/main/cpp/VGMPlay/VGMPlay.c:5688-5692 | within a second positions stay inside that second |
| Resampler.PosFits | app/src/main/cpp/VGMPlay/VGMPlay.c:5553 | the position arithmetic fits 32 bits for rates below 2^21 |
| Resampler.PosFitsExactly | app/src/main/cpp/VGMPlay/VGMPlay.c:5553 | that bound is exact: from 2^21 on the position at the end of a second wraps |
| Resampler.UpStep | app/src/main/cpp/VGMPlay/VGMPlay.c:5553-5555 | an upsampler passes at most one chip sample per output |
| Resampler.DownStep | app/src/main/cpp/VGMPlay/VGMPlay.c:5624-5625 | a downsampling window covers 1 to 250 samples and its ends stay inside the buffer |
| Resampler.WindowParts | app/src/main/cpp/VGMPlay/VGMPlay.c:5643-5672 | a window is its two partial end samples and the whole samples between them |
| Resampler.DirectChannels | app/src/main/cpp/VGMPlay/VGMPlay.c:5551-5682 | left comes from left and right from right, each resampled on its own |
| Resampler.NoOvershoot | app/src/main/cpp/VGMPlay/VGMPlay.c:5551-5682 | neither direction overshoots: a channel within [lo, hi] comes out within [lo, hi] times the volume, a constant exactly |
| Resampler.OutputCuts | app/src/main/cpp/VGMPlay/VGMPlay.c:5602-5603 | one output is the weighted sum times the volume over the weight, cut toward zero, modulo 2^32 |
| VgmPlayer.SeekIsPlay | app/src/main/cpp/VGMPlay/VGMPlay.c:3885-3940 | asking for a samples and then b executes the same commands and ends in the same state as asking for a + b, through any number of file loops |
| VgmPlayer.PlayIsSeek | app/src/main/cpp/VGMPlay/VGMPlay.c:3885-3940 | and what comes back for a + b samples comes back after the first a |
| VgmPlayer.RunsForUnique | app/src/main/cpp/VGMPlay/VGMPlay.c:4432-4433 | the number of commands executed is determined |
| VgmPlayer.StepShift | app/src/main/cpp/VGMPlay/VGMPlay.c:4539-4591 | a command does the same whatever the playback clock shows |
| VgmPlayer.AtEndShift | app/src/main/cpp/VGMPlay/VGMPlay.c:4540-4578 | looping moves file and playback clocks independently of where they are |
| VgmPlayer.LoadBlockShift | app/src/main/cpp/VGMPlay/VGMPlay.c:3942-3983 | loading a data block neither reads nor moves the clocks |
| VgmPlayer.RunningMono | app/src/main/cpp/VGMPlay/VGMPlay.c:3697-3703 | commands due within a samples are due within a + b |
| VgmPlayer.PlayedKept | app/src/main/cpp/VGMPlay/VGMPlay.c:4540-4545 | only looping changes the number of samples asked for |
| VgmPlayer.LeadStep | app/src/main/cpp/VGMPlay/VGMPlay.c:4432-4591 | every command lowers the distance between the clocks by its wait; looping raises it by what the rate conversion rounds away |
| VgmPlayer.Terminates | app/src/main/cpp/VGMPlay/VGMPlay.c:4433-5313 | interpretation comes back when every pass through the loop waits for more than that rounding |
| VgmPlayer.NeverEnds | app/src/main/cpp/VGMPlay/VGMPlay.c:4433-5313 | when it does not, and the loop is not cut short, interpretation never comes back once the lead covers a pass |
| VgmPlayer.TerminatesExactly | app/src/main/cpp/VGMPlay/VGMPlay.c:4433-5313 | from the start of playback, interpretation comes back for every number of samples if and only if not all of this holds: the file loops, both the first pass and the loop reach their end command, no track end after a number of passes is set, and a pass waits for no more than the rounding gives back |
| VgmPlayer.EmptyLoopHangs | app/src/main/cpp/VGMPlay/VGMPlay.c:4546-4559 | a two-byte file whose loop is its end command never comes back |
| VgmPlayer.PlaysOutTerminates | app/src/main/cpp/VGMPlay/VGMPlay.c:4433-5313 | a pass that runs off the data, or a set number of passes, always ends |
| VgmPlayer.FadeKept | app/src/main/cpp/VGMPlay/VGMPlay.c:4546-4559 | only looping counts a pass or starts the fade |
| VgmPlayer.KeepsComingBack | app/src/main/cpp/VGMPlay/VGMPlay.c:3885-3940 | a file that comes back from its start does so after any number of samples |
| VgmPlayer.OneToOne | app/src/main/cpp/VGMPlay/VGMPlay.c:3697-3703 | at a 1:1 rate that means at least one sample of delay in the loop |
| VgmPlayer.Player.InterpretFile | app/src/main/cpp/VGMPlay/VGMPlay.c:3885-3940 | wherever that comes to an end at all, executes exactly the commands due and ends in the state after them |
| VgmPlayer.Player.Interpret | app/src/main/cpp/VGMPlay/VGMPlay.c:4424-5313 | the loop: one command a pass while one is due |
| VgmPlayer.Player.ShortWait | app/src/main/cpp/VGMPlay/VGMPlay.c:4436-4448 | one short wait, the second kind with a byte of the bank for the YM2612 |
| VgmPlayer.Player.NextBankByte | app/src/main/cpp/VGMPlay/VGMPlay.c:4369-4375 | the byte at the bank position, which moves on, or 0x80 past the end |
| VgmPlayer.Player.EndOfData | app/src/main/cpp/VGMPlay/VGMPlay.c:4539-4578 | loops back or ends |
| VgmPlayer.Player.AddPcmData | app/src/main/cpp/VGMPlay/VGMPlay.c:3942-3983 | appends a new block to the bank, or passes over one met before |
| VgmBank.BytesInARow | app/src/main/cpp/VGMPlay/VGMPlay.c:4436-4448 | n commands 0x80 to 0x8F in a row, with as many bytes left, send exactly those bytes of the bank in order and move n further |
| VgmBank.StretchHeard | app/src/main/cpp/VGMPlay/VGMPlay.c:4369-4448 | between two seeks the bytes sent are one consecutive slice of the bank, however the commands are spread over the file and whatever is loaded meanwhile |
| VgmBank.RunsDry | app/src/main/cpp/VGMPlay/VGMPlay.c:4369-4375 | and go on as 0x80 for ever once the bank is used up |
| VgmBank.SeekStep | app/src/main/cpp/VGMPlay/VGMPlay.c:4800-4803 | 0xE0 moves to the 32-bit place that follows it, low byte first |
| VgmBank.BankStep | app/src/main/cpp/VGMPlay/VGMPlay.c:4432-4591 | no other command moves the place or sends a byte; the bank only grows |
| VgmBank.BankOfFile | app/src/main/cpp/VGMPlay/VGMPlay.c:3942-3983 | at any point of the first pass the bank and the blocks still to come are the data of the file's blocks in file order; from the first loop on the bank is that and stays so |
| VgmBank.BankKept | app/src/main/cpp/VGMPlay/VGMPlay.c:4433-4591 | every command keeps that |
| VgmBank.PlayInPieces | app/src/main/cpp/VGMPlay/VGMPlay.c:3885-3940 | a file that does not hang, asked for in any pieces: the commands of all the samples at once have been executed, and the bank is the file's |
| VgmBank.WaitCommands | app/src/main/cpp/VGMPlay/VGMPlay.c:4436-4591 | the commands that wait: a given time, a sixtieth or a fiftieth of a second, or 1 to 16 samples |
| VgmBank.FramesPerSecond | app/src/main/cpp/VGMPlay/VGMPlay.c:4579-4586 | sixty waits of the one kind, or fifty of the other, are exactly 44100 samples |
| VgmBank.ChipCommands | app/src/main/cpp/VGMPlay/VGMPlay.c:4592-5266 | commands for the chips are passed on with the operands the format gives each |
| VgmBank.SilentCommands | app/src/main/cpp/VGMPlay/VGMPlay.c:5276-5302 | commands below 0x30 are passed over; those of unknown length end playback |
| VgmBank.BlockCommand | app/src/main/cpp/VGMPlay/VGMPlay.c:4609-4615 | a data block is seven bytes and its data, and takes no time |
| Gcd.BinaryGcd | app/src/main/cpp/VGMPlay/VGMPlay.c:836-868 | for all x and y, zero included, the result is a common divisor that every common divisor divides |
| Gcd.OddGcd | app/src/main/cpp/VGMPlay/VGMPlay.c:850-865 | the loop keeps the common divisors of its pair and terminates |
| Gcd.StripTwos | app/src/main/cpp/VGMPlay/VGMPlay.c:850-855 | removing factors 2 that the other number does not have keeps the common divisors |
| Gcd.GcdUnique | app/src/main/cpp/VGMPlay/VGMPlay.c:836-868 | there is only one greatest common divisor |
| Gcd.GcdShifted | app/src/main/cpp/VGMPlay/VGMPlay.c:845-867 | the factors 2 taken out first are exactly those put back by the final shift |
| Gcd.Reduced | app/src/main/cpp/VGMPlay/VGMPlay.c:961-970 | dividing both terms by it keeps their ratio and leaves coprime terms |
| Gcd.RateFractions | app/src/main/cpp/VGMPlay/VGMPlay.c:956-970 | both playback fractions are in lowest terms and in the ratio of the rates they were made from; a missing rate counts as 1:1 |
| Gcd.Reduce | app/src/main/cpp/VGMPlay/VGMPlay.c:968-970 | one fraction in lowest terms |
| Gcd.OneToOneRate | app/src/main/cpp/VGMPlay/VGMPlay.c:956-970 | at 44100 Hz and the file's own speed the fraction is 1/1 |
| DataBlock.ReadCode | app/src/main/cpp/VGMPlay/VGMPlay.c:4202-4221 | reading one code takes exactly its bits off the stream, groups of eight placed from the low end up |
| DataBlock.ReadGroup | app/src/main/cpp/VGMPlay/VGMPlay.c:4206-4217 | up to eight bits, most significant first, across a byte boundary where needed |
| DataBlock.OneByte | app/src/main/cpp/VGMPlay/VGMPlay.c:4210-4211 | the shift-and-mask expression gives the bits of one byte |
| DataBlock.TwoBytes | app/src/main/cpp/VGMPlay/VGMPlay.c:4211-4217 | and, or-ed with a second one, bits that straddle two bytes |
| DataBlock.NextValue | app/src/main/cpp/VGMPlay/VGMPlay.c:4202-4244 | the k-th value is made of the k-th code by copying, shifting or table |
| DataBlock.DecodeBits | app/src/main/cpp/VGMPlay/VGMPlay.c:4191-4261 | every value is that of its own code, until the output is full or the input is used up; nothing else is written |
| DataBlock.DpcmStep | app/src/main/cpp/VGMPlay/VGMPlay.c:4313-4334 | adding one delta to the running value gives the next value |
| DataBlock.DecodeDpcm | app/src/main/cpp/VGMPlay/VGMPlay.c:4280-4335 | the k-th value is the start plus all table deltas up to its own, modulo 2^bits |
| DataBlock.NextDpcm | app/src/main/cpp/VGMPlay/VGMPlay.c:4290-4318 | one value |
| DataBlock.CoversExactly | app/src/main/cpp/VGMPlay/VGMPlay.c:4398-4402 | every code has its entry in the table if and only if the table has 2^bits entries |
| DataBlock.Store | app/src/main/cpp/VGMPlay/VGMPlay.c:4246-4260 | a value is stored in one or two bytes, low byte first |
| DataBlock.DecompressDataBlk | app/src/main/cpp/VGMPlay/VGMPlay.c:4165-4340 | which blocks are refused, by the bytes of the header, what size is reported, and for all others the contents |
| DataBlock.AllDecoded | app/src/main/cpp/VGMPlay/VGMPlay.c:4199 | with enough input every value of the block is decoded |
| DataBlockPacking.RoundTrip | app/src/main/cpp/VGMPlay/VGMPlay.c:4202-4221 | whatever codes are packed the way the format says, the reader's bit stream gives them back |
| DataBlockPacking.BlockCodes | app/src/main/cpp/VGMPlay/VGMPlay.c:4165-4221 | so do the codes of a whole block of any kind |
| DataBlockPacking.BlockRoundTrip | app/src/main/cpp/VGMPlay/VGMPlay.c:4165-4262 | decompressing a block of any kind gives back what was packed, byte by byte, low byte first: codes plus or shifted by an amount, entries of a table, or a running sum of table deltas |
| DataBlockPacking.ValueIsMeant | app/src/main/cpp/VGMPlay/VGMPlay.c:4222-4334 | for each kind the decoder makes of the k-th code the value that was meant |
| DataBlockPacking.EntryOfTable | app/src/main/cpp/VGMPlay/VGMPlay.c:4237-4240 | an entry of two bytes has its low byte first |
| DataBlockPacking.HeadRead | app/src/main/cpp/VGMPlay/VGMPlay.c:4165-4190 | the header is read as it was written |
| OplCache.Cache.constructor | app/src/main/cpp/VGMPlay/ChipMapper.c:907-954 | forced registers are trivially coherent |
| OplCache.Cache.WriteReg | app/src/main/cpp/VGMPlay/ChipMapper.c:907-954 | a suppressed write leaves the chip as a sent one would; coherence is kept |
| OplCache.Cache.StartSkipping | app/src/main/cpp/VGMPlay/ChipMapper.c:1110-1120 | takes a backup, once |
| OplCache.Cache.SilenceChannel | app/src/main/cpp/VGMPlay/ChipMapper.c:1136-1157 | a note that is off by now is keyed off on the chip and its operators get the fastest release rate, as far as the cache lets it through; nothing else is written |
| OplCache.Cache.SilenceNotes | app/src/main/cpp/VGMPlay/ChipMapper.c:1136-1157 | afterwards every note of both ports that is off by now is off on the chip |
| OplCache.Cache.SilenceOne | app/src/main/cpp/VGMPlay/ChipMapper.c:1139-1156 | silencing one channel leaves the others as they are |
| OplCache.Cache.FastRelease | app/src/main/cpp/VGMPlay/ChipMapper.c:1140-1143 | the chip gets the fastest release rate unless the shadow register has it already and is not forced, and then keeps its own; the register is forced |
| OplCache.Cache.OperatorTable | app/src/main/cpp/VGMPlay/ChipMapper.c:1135-1150 | the operators of the nine channels, as the chip numbers them |
| OplCache.Cache.OperatorsApart | app/src/main/cpp/VGMPlay/ChipMapper.c:1135-1150 | no two channels share one, so releasing a note never touches another |
| OplCache.Cache.KeyOff | app/src/main/cpp/VGMPlay/ChipMapper.c:1145-1146 | the chip holds the key register's value, sent or not |
| OplCache.Cache.SaveReleases | app/src/main/cpp/VGMPlay/ChipMapper.c:1134-1135 | saves the release rates of both ports |
| OplCache.Cache.RestoreReleases | app/src/main/cpp/VGMPlay/ChipMapper.c:1158-1159 | the shadow registers are again what they were |
| OplCache.Cache.Resend | app/src/main/cpp/VGMPlay/ChipMapper.c:1163-1164 | afterwards the chip holds the shadow value of that register |
| OplCache.Cache.ResendBoth | app/src/main/cpp/VGMPlay/ChipMapper.c:1169-1172 | one register of both ports |
| OplCache.Cache.SendFirst | app/src/main/cpp/VGMPlay/ChipMapper.c:1166-1173 | registers 00 to 1F of both ports |
| OplCache.Cache.SendDown | app/src/main/cpp/VGMPlay/ChipMapper.c:1175-1185 | the scan that jumps over the frequency registers reaches all others and terminates |
| OplCache.Cache.SendFrequencies | app/src/main/cpp/VGMPlay/ChipMapper.c:1187-1196 | the frequency registers of existing channels |
| OplCache.Cache.SendAll | app/src/main/cpp/VGMPlay/ChipMapper.c:1161-1200 | together these are all registers except A9-AF and B9-BF, BD included |
| OplCache.Cache.StopSkipping | app/src/main/cpp/VGMPlay/ChipMapper.c:1122-1204 | the chip equals the shadow registers, which keep their values, for every register but A9 to AF and B9 to BF, BD excepted, of both ports; for those, coherence comes back exactly when skipping left them as they were or their next write is forced |
| OplCache.LeftIncoherent | app/src/main/cpp/VGMPlay/ChipMapper.c:1187-1196 | a register without a channel, written while skipping: a later write of its value never reaches the chip |
| OplCache.HeldBack | app/src/main/cpp/VGMPlay/ChipMapper.c:1140-1143 | a release rate that became the fastest while skipping: the chip keeps its slow one |
| MusicEmu.Player.Play | app/src/main/cpp/gme/Music_Emu.cpp:339-409 | each sample is the emulator's own at its position, or 0 from a block whose samples after the first are all within [-8, 8]; once fading it comes out times the gain of its block, rounded down to a whole, and the same sample never louder later in the call; silence_time stays the last loud sample of those examined, and what a call does not examine is the first sample of each stretch it looks through; the call is cut short only by the end of the track, which comes only when the emulator has ended, when more than the limit of samples after silence_time have been produced with nothing loud among those examined and nothing but silence unheard, or when the fade is over, and then it does come; a run of silence past the limit does end it; with silence detection off it is the raw stream; the clock identity is kept |
| MusicEmu.Player.PlayUnfaded | app/src/main/cpp/gme/Music_Emu.cpp:355-402 | the same before the fade, with the samples passed over unexamined |
| MusicEmu.Player.PlaySilence | app/src/main/cpp/gme/Music_Emu.cpp:355-374 | zeros are handed out for positions in silent blocks only; during a run of silence the track ends if and only if more than the limit has been produced since the last sound noted, and all that is dropped is silent |
| MusicEmu.Player.LookAhead | app/src/main/cpp/gme/Music_Emu.cpp:358-361 | terminates far enough ahead, at sound, or at the end of the emulator |
| MusicEmu.Player.EndsInSilence | app/src/main/cpp/gme/Music_Emu.cpp:363-374 | when the rule fires nothing but silence has been read ahead and not been heard |
| MusicEmu.Player.SilenceAhead | app/src/main/cpp/gme/Music_Emu.cpp:359-368 | with a look-ahead factor above 1, all but one part in that factor of the limit has been seen silent beyond what is due, whatever a skip passed over |
| MusicEmu.Player.RuleExact | app/src/main/cpp/gme/Music_Emu.cpp:366-373 | when the rule fires, the last samples produced, the limit of them or any other number after silence_time, are all quiet if and only if none of them that was not examined is loud |
| MusicEmu.SkipOverSound | app/src/main/cpp/gme/Music_Emu.cpp:205-231 | a skip over sound: with look-ahead 1 the track ends four samples after the last loud one |
| MusicEmu.PlayToEnd | app/src/main/cpp/gme/Music_Emu.cpp:355-401 | with detection on, a track silent from some position of the emulator on does end: by the limit, or a block if that is longer, and three calls |
| MusicEmu.PlayThrough | app/src/main/cpp/gme/Music_Emu.cpp:355-401 | in a track played from its start without a skip, a loud sample after silence_time lies in the block that waited at the start or whole blocks past one of at most two places a call |
| MusicEmu.Player.EndIfSilent | app/src/main/cpp/gme/Music_Emu.cpp:368-373 | the test itself: ends the track exactly past the limit |
| MusicEmu.Player.TakeSilence | app/src/main/cpp/gme/Music_Emu.cpp:363-366 | takes what is due from the run of silence |
| MusicEmu.Player.PlayQueued | app/src/main/cpp/gme/Music_Emu.cpp:355-383 | the run of silence and then the block, heard in order |
| MusicEmu.Player.NotedOn | app/src/main/cpp/gme/Music_Emu.cpp:395-397 | over a stretch examined but for its first sample the note stays the last loud sample |
| MusicEmu.Player.Examined | app/src/main/cpp/gme/Music_Emu.cpp:311-319 | what the count of silence says about the stretch of the emulator |
| MusicEmu.Player.DrainBuf | app/src/main/cpp/gme/Music_Emu.cpp:376-383 | the block read ahead is handed out in order |
| MusicEmu.Player.Generate | app/src/main/cpp/gme/Music_Emu.cpp:385-402 | the rest comes straight from the emulator, sound in it is noted, only the first sample goes unexamined, a long enough run of silence is looked ahead of, and the track ends exactly with the emulator |
| MusicEmu.Player.PlayOn | app/src/main/cpp/gme/Music_Emu.cpp:387-390 | the next samples of the emulator, and its end is the end of the track |
| MusicEmu.Player.LookForSilence | app/src/main/cpp/gme/Music_Emu.cpp:392-401 | looking for silence changes no sample handed out, notes the last sound but a first sample, and looks ahead once a block of silence has been seen |
| MusicEmu.Player.FillBuf | app/src/main/cpp/gme/Music_Emu.cpp:322-337 | a block read ahead is queued as silence exactly when all its samples but the first are quiet, and otherwise its last loud sample is noted; never entered with a block waiting |
| MusicEmu.CountSilence | app/src/main/cpp/gme/Music_Emu.cpp:311-319 | counts from the last loud sample on, the first sample counting as loud, and restores the sentinel |
| MusicEmu.QuietIs | app/src/main/cpp/gme/Music_Emu.cpp:316 | the unsigned comparison means -8 <= x <= 8 |
| MusicEmu.Player.EmuPlay | app/src/main/cpp/gme/Music_Emu.cpp:300-308 | the emulator's next samples, or zeros once it has ended |
| MusicEmu.Player.StartTrack | app/src/main/cpp/gme/Music_Emu.cpp:133-161 | afterwards out_time is 0, output begins at the first block that is not silent, and no sound of that block is noted |
| MusicEmu.Player.Restart | app/src/main/cpp/gme/Music_Emu.cpp:133-143 | all clocks and counters are back at 0 |
| MusicEmu.Player.FindSound | app/src/main/cpp/gme/Music_Emu.cpp:147-153 | skips whole silent blocks only, up to the time allowed |
| MusicEmu.OnlySilenceSkipped | app/src/main/cpp/gme/Music_Emu.cpp:147-153 | nothing but silent blocks is skipped at the start |
| MusicEmu.Player.Skip | app/src/main/cpp/gme/Music_Emu.cpp:205-231 | skipping moves all clocks together, takes from the run of silence and the block first, examines nothing of what it runs, and ends the track only when the emulator has ended and nothing it produced is left |
| MusicEmu.Player.SkipQueued | app/src/main/cpp/gme/Music_Emu.cpp:210-218 | the part of a skip inside the run of silence and the block |
| MusicEmu.Player.SkipOn | app/src/main/cpp/gme/Music_Emu.cpp:220-224 | the part that runs the emulator |
| MusicEmu.Player.SkipEmulator | app/src/main/cpp/gme/Music_Emu.cpp:233-260 | the emulator runs exactly the samples skipped, unless it ends |
| MusicEmu.Player.SeekSamples | app/src/main/cpp/gme/Music_Emu.cpp:193-198 | afterwards out_time is the time asked for, at the raw position playing from the start would have there; the track ends only with the emulator |
| MusicEmu.Player.SetFade | app/src/main/cpp/gme/Music_Emu.cpp:264-268 | the fade's start and step |
| MusicEmu.Player.HandleFade | app/src/main/cpp/gme/Music_Emu.cpp:278-296 | every sample is scaled by the gain of its block, and the track ends exactly when the last block begins at least eight steps and 2^-14 of a step into the fade |
| MusicEmu.Player.FadeBlock | app/src/main/cpp/gme/Music_Emu.cpp:289-294 | one block, the others untouched |
| MusicEmu.Player.GainFalls | app/src/main/cpp/gme/Music_Emu.cpp:284-285 | the gain never rises |
| MusicEmu.Player.GainExact | app/src/main/cpp/gme/Music_Emu.cpp:270-285 | the gain by its time, as inequalities: halved for every whole step of blocks, falling in a straight line in between, rounded down |
| MusicEmu.Player.FadedOutIs | app/src/main/cpp/gme/Music_Emu.cpp:286-287 | the gain falls below 1/256 exactly there |
| MusicEmu.Player.LaterNotLouder | app/src/main/cpp/gme/Music_Emu.cpp:278-296 | the same sample never comes out louder later in a fade |
| MusicEmu.Player.FadesOut | app/src/main/cpp/gme/Music_Emu.cpp:278-296 | a faded sample is the sample times the gain of its block over 2^14, rounded down, and equal samples never get louder within a call |
| Fade.IntLogMono | app/src/main/cpp/gme/Music_Emu.cpp:270-276 | the interpolated logarithm falls from unity and stays non-negative |
| Fade.FadeEndsExactly | app/src/main/cpp/gme/Music_Emu.cpp:286-287 | the gain is below 1/256, where the track ends, exactly once eight steps and a further 2^-14 of a step have passed |
| Fade.FadeEnds | app/src/main/cpp/gme/Music_Emu.cpp:286-287 | for steps up to 2^14 that is the very next block after eight steps |
| Fade.FadedFits | app/src/main/cpp/gme/Music_Emu.cpp:292 | a faded sample fits 16 bits |
| Fade.IntLogExact | app/src/main/cpp/gme/Music_Emu.cpp:270-276 | the logarithm without its shifts and divisions |
| Fade.LowerGain | app/src/main/cpp/gme/Music_Emu.cpp:292 | a lower gain leaves less of a sample, and unity gain leaves it as it is |
| NesDmc.CountReadsExact | app/src/main/cpp/gme/Nes_Oscs.cpp:293-319 | count_reads(t) is the number of bytes that running to t fetches, looping or not |
| NesDmc.LastReadLeast | app/src/main/cpp/gme/Nes_Oscs.cpp:310-316 | last_read is never later than t, gives the same count, and is the least such time exactly when the count is not 0 |
| NesDmc.CountReadsMono | app/src/main/cpp/gme/Nes_Oscs.cpp:293-319 | the count never falls with time |
| NesDmc.NextReadTimeExact | app/src/main/cpp/gme/Nes_Apu.h:169-175 | a run fetches exactly when it goes past next_read_time |
| NesDmc.IrqExact | app/src/main/cpp/gme/Nes_Oscs.cpp:281-291 | with interrupts enabled and bytes left, running to t raises the flag if and only if t is at least the predicted time |
| NesDmc.IrqStep | app/src/main/cpp/gme/Nes_Oscs.cpp:284-286 | one bit does not move the predicted time |
| NesDmc.PredictionKept | app/src/main/cpp/gme/Nes_Oscs.cpp:281-291 | no partial run changes the prediction |
| NesDmc.PredictionsHold | app/src/main/cpp/gme/Nes_Oscs.cpp:399-469 | both predictions hold for run as the chip calls it |
| NesDmc.RunSplit | app/src/main/cpp/gme/Nes_Oscs.cpp:413-468 | stopping on the way changes neither state, fetches nor amplitude steps |
| NesDmc.RunValid | app/src/main/cpp/gme/Nes_Oscs.cpp:399-469 | bytes left imply a full sample buffer, in every reachable state; fetches are only added to |
| NesDmc.SilentRun | app/src/main/cpp/gme/Nes_Oscs.cpp:416-422 | with nothing to play, the division jumps to where stepping ends |
| NesDmc.BitsStep | app/src/main/cpp/gme/Nes_Oscs.cpp:420 | the modulo formula for bits_remain counts down and wraps |
| NesDmc.Apu.Reset | app/src/main/cpp/gme/Nes_Oscs.cpp:264-279 | the whole start state, the rate that of rate 0, which satisfies the invariant |
| NesDmc.Apu.RunUntil | app/src/main/cpp/gme/Nes_Oscs.cpp:399-469 | the method ends in the state that stepping bit by bit gives, and keeps the invariant: the stored prediction is right, the bits being shifted are the rest of the byte fetched last or last but one, and the steps add up to the DAC's level |
| NesDmc.Apu.BeginRun | app/src/main/cpp/gme/Nes_Oscs.cpp:401-411 | what happens before the first bit |
| NesDmc.Apu.AudibleLoop | app/src/main/cpp/gme/Nes_Oscs.cpp:430-460 | the loop on local copies equals the reference run |
| NesDmc.Apu.RunBits | app/src/main/cpp/gme/Nes_Oscs.cpp:413-468 | either path ends in the reference state |
| NesDmc.Apu.ClockBit | app/src/main/cpp/gme/Nes_Oscs.cpp:432-458 | one output bit |
| NesDmc.Apu.LoadByte | app/src/main/cpp/gme/Nes_Oscs.cpp:446-457 | the byte that waits becomes the one shifted out, or silence |
| NesDmc.Apu.FillBuffer | app/src/main/cpp/gme/Nes_Oscs.cpp:376-397 | fetches one byte if the buffer is empty and bytes are left; the last one reloads the sample or raises the interrupt |
| NesDmc.Apu.ReloadSample | app/src/main/cpp/gme/Nes_Oscs.cpp:329-333 | address and length from the registers |
| NesDmc.Apu.CountDmcReads | app/src/main/cpp/gme/Nes_Oscs.cpp:293-319 | the method computes the functions the theorems are about |
| NesDmc.Apu.RecalcIrq | app/src/main/cpp/gme/Nes_Oscs.cpp:281-291 | stores the prediction |
| NesDmc.Apu.Start | app/src/main/cpp/gme/Nes_Oscs.cpp:369-374 | restarts the sample and fetches its first byte |
| NesDmc.Apu.WriteRate | app/src/main/cpp/gme/Nes_Oscs.cpp:347-355 | a rate write keeps the prediction right |
| NesDmc.PeriodsFall | app/src/main/cpp/gme/Nes_Oscs.cpp:321-327 | higher rates have shorter periods, and those of the PAL machine are shorter |
| NesDmc.Apu.WriteSample | app/src/main/cpp/gme/Nes_Apu.cpp:300-308 | address and length writes wait for the next start |
| NesDmc.Apu.WriteEnable | app/src/main/cpp/gme/Nes_Apu.cpp:320-342 | switching off, acknowledging and switching on, each with its own effect |
| NesDmc.Apu.EndFrame | app/src/main/cpp/gme/Nes_Apu.cpp:252-266 | times become relative to the new frame |
| NesDmc.RunHolds | app/src/main/cpp/gme/Nes_Oscs.cpp:430-460 | in every run the bits being shifted out are the rest of the byte fetched last but one while one waits, of the last otherwise |
| NesDmcSound.PlaysItsBytes | app/src/main/cpp/gme/Nes_Oscs.cpp:413-468 | from any reachable state and for any run: bit clock by bit clock the DAC has moved by +2 or -2 as the next bit, lowest first, of the bytes in the order fetched is 1 or 0, except where that would leave 0..127, and every move was heard at its time |
| NesDmcSound.FetchesSample | app/src/main/cpp/gme/Nes_Oscs.cpp:376-397 | the bytes fetched by any run are the rest of the sample in order, and when it loops the whole sample again and again; without looping no more than was left |
| NesDmcSound.SampleIsHeard | app/src/main/cpp/gme/Nes_Oscs.cpp:369-460 | a sample started with nothing buffered: the bits of its bytes from its registers' address on, wrapping at 0x8000, one a period from the end of the byte period begun before, looping included |
| NesDmcSound.PlaySample | app/src/main/cpp/gme/Nes_Oscs.cpp:264-469 | the chip itself, reset, given a rate, an address and a length, switched on and run in any pieces, plays that sample: fetches, steps and DAC |
| NesDmcSound.RunIsClocks | app/src/main/cpp/gme/Nes_Oscs.cpp:432-459 | a run is as many bit clocks as periods begin in it |
| NesFrames.Apu.RunUntil | app/src/main/cpp/gme/Nes_Apu.cpp:148-226 | the loop takes every frame action due, at its time, and runs the oscillators over stretches that join up |
| NesFrames.Apu.TakeAction | app/src/main/cpp/gme/Nes_Apu.cpp:180-218 | one frame's action and the time to the next |
| NesFrames.Apu.WriteMode | app/src/main/cpp/gme/Nes_Apu.cpp:343-366 | a mode write restarts the sequence and announces the next interrupt |
| NesFrames.Apu.EndFrame | app/src/main/cpp/gme/Nes_Apu.cpp:238-262 | times become relative to the new frame |
| NesFrames.RunSplit | app/src/main/cpp/gme/Nes_Apu.cpp:148-226 | running in pieces clocks the same units at the same times |
| NesFrames.Cycle | app/src/main/cpp/gme/Nes_Apu.cpp:180-218 | the length of a full four-step or five-step sequence |
| NesFrames.Schedule | app/src/main/cpp/gme/Nes_Apu.cpp:180-218 | the times and the order of the four actions of a sequence, for both modes and both kinds of machine, and the flag after them |
| NesFrames.IrqWhen | app/src/main/cpp/gme/Nes_Apu.cpp:184-188 | the flag goes up exactly when a run passes the next action of frame 0 in the four-step mode with interrupts on |
| NesFrames.AnnouncementKept | app/src/main/cpp/gme/Nes_Apu.cpp:359-362 | the announced time stays a fixed 3, later 4, clocks behind that action |
| NesFrames.AnnouncementLate | app/src/main/cpp/gme/Nes_Apu.cpp:185-188 | so it is late by that much less one: the exact distance between announcement and flag |
| Oscillator.RunSplit | app/src/main/cpp/gme/Kss_Scc_Apu.cpp:24-97 | splitting a run where no register changes alters neither state nor steps |
| Oscillator.SilentRun | app/src/main/cpp/gme/Kss_Scc_Apu.cpp:62-68 | the division leaves phase and time where stepping period by period does |
| Oscillator.StepsAddUp | app/src/main/cpp/gme/Kss_Scc_Apu.cpp:50-56 | the steps emitted always add up to the last amplitude |
| Oscillator.RunToLevel | app/src/main/cpp/gme/Kss_Scc_Apu.cpp:59-93 | a run ends at the level of its phase |
| Oscillator.LevelsDoNotMatter | app/src/main/cpp/gme/Nes_Oscs.cpp:95-104 | phase and timer do not depend on what is heard |
| Oscillator.RunIsWave | app/src/main/cpp/gme/Kss_Scc_Apu.cpp:59-94 | at every time of a run the output is the wave at the phase reached, one further for every period gone by |
| NesSquare.Square.Run | app/src/main/cpp/gme/Nes_Oscs.cpp:106-165 | run, silent or audible, equals the reference run |
| NesSquare.Square.AudibleLoop | app/src/main/cpp/gme/Nes_Oscs.cpp:143-161 | flipping at phases 0 and duty emits the same steps as comparing levels |
| NesSquare.Square.MaintainPhase | app/src/main/cpp/gme/Nes_Oscs.cpp:82-93 | the phase jumps by the number of expirations |
| NesSquare.Square.SetAmp | app/src/main/cpp/gme/Nes_Oscs.cpp:136-140 | emits the step to the present amplitude |
| NesSquare.Square.RunMuted | app/src/main/cpp/gme/Nes_Oscs.cpp:100-104 | with the output off phase and timer go on as if it were on |
| NesSquare.SquareShape | app/src/main/cpp/gme/Nes_Oscs.cpp:106-165 | the wave by the bits of the registers: duty, volume, period, and when a sweep silences it |
| SccApu.Osc.RunUntil | app/src/main/cpp/gme/Kss_Scc_Apu.cpp:24-97 | one oscillator's share equals the reference run |
| SccApu.Osc.AudibleLoop | app/src/main/cpp/gme/Kss_Scc_Apu.cpp:69-92 | the loop on a pre-advanced phase emits the same steps |
| SccApu.SccShape | app/src/main/cpp/gme/Kss_Scc_Apu.cpp:28-60 | the wave by the registers, and when it is heard |
| Fme7Apu.Osc.RunUntil | app/src/main/cpp/gme/Nes_Fme7_Apu.cpp:47-116 | one oscillator's share equals the reference run |
| Fme7Apu.Osc.AudibleLoop | app/src/main/cpp/gme/Nes_Fme7_Apu.cpp:93-105 | every expiration flips the level |
| Fme7Apu.Fme7Shape | app/src/main/cpp/gme/Nes_Fme7_Apu.cpp:55-91 | the wave by the registers, and when it is heard |
| AyApu.Channel.Interleave | app/src/main/cpp/gme/Ay_Apu.cpp:292-348 | each pass ends the loop or moves a clock, so it terminates; the result is the merged event sequence; the sign of delta says whether tone and noise bit are both 1 |
| AyApu.Channel.RunNoise | app/src/main/cpp/gme/Ay_Apu.cpp:294-318 | noise up to and including the bound, heard or passed over by division, gives the same event sequence |
| AyApu.Channel.RunHeardNoise | app/src/main/cpp/gme/Ay_Apu.cpp:297-310 | a step is emitted exactly when the noise bit changes |
| AyApu.Channel.RunTone | app/src/main/cpp/gme/Ay_Apu.cpp:320-346 | tone up to the bound, heard or not |
| AyApu.Channel.RunHeardTone | app/src/main/cpp/gme/Ay_Apu.cpp:323-335 | phase recovered from the sign of delta is the right one |
| AyApu.EventsOrdered | app/src/main/cpp/gme/Ay_Apu.cpp:285-348 | however tone and noise are batched, steps come out in the order of their times |
| AyApu.EventsTotal | app/src/main/cpp/gme/Ay_Apu.cpp:287-350 | the steps always add up to the level the two bits call for |
| AyApu.EventsAdd | app/src/main/cpp/gme/Ay_Apu.cpp:292-348 | passes compose |
| AyApu.QuietNoise | app/src/main/cpp/gme/Ay_Apu.cpp:311-318 | unheard noise can be passed over by division |
| AyApu.NoiseBit | app/src/main/cpp/gme/Ay_Apu.cpp:301-307 | the register stays non-zero, and its bit changes exactly when its two low bits differ |
| AyApu.SoundOf | app/src/main/cpp/gme/Ay_Apu.cpp:196-233 | what is switched off, and until when the first volume holds: to the next envelope step if the envelope matters, to the end otherwise; a silent channel is switched off, one with volume keeps its own switches |
| AyApu.RunChannel | app/src/main/cpp/gme/Ay_Apu.cpp:185-375 | a channel plays its envelope segments from exactly the phase, tone time and noise it is given, a part that is off held at 1 with its clock past the end, and leaves phase, delay and noise where they end; afterwards the output is the last volume if both bits are 1 and 0 otherwise |
| AyApu.LastAmp | app/src/main/cpp/gme/Ay_Apu.cpp:216-233 | a silent channel is at 0 whatever the switches say, the others follow their bits |
| AyApu.Prepare | app/src/main/cpp/gme/Ay_Apu.cpp:235-254 | the state a run starts from: a tone that is off keeps its phase by division; a part that is off starts past the end |
| AyApu.RunSegments | app/src/main/cpp/gme/Ay_Apu.cpp:264-367 | one segment for each envelope position, at that position's volume, each run to its end |
| AyApu.RunSegment | app/src/main/cpp/gme/Ay_Apu.cpp:267-353 | one pass of that loop |
| AyApu.CatchUp | app/src/main/cpp/gme/Ay_Apu.cpp:269-353 | steps to the present level, then runs both clocks to the end, neither by more than a period of its own |
| AyApu.StepToLevel | app/src/main/cpp/gme/Ay_Apu.cpp:269-280 | the step to the present level |
| AyApu.EnvelopeClosedForm | app/src/main/cpp/gme/Ay_Apu.cpp:379-392 | the envelope's closed form equals stepping expiration by expiration, and keeps -48 <= pos < 0 < delay |
| AyApu.EnvelopeSplit | app/src/main/cpp/gme/Ay_Apu.cpp:379-392 | splitting the envelope's time changes nothing |
| AyApu.Osc.SetPeriod | app/src/main/cpp/gme/Ay_Apu.cpp:142-156 | a period write moves the pending expiration by the change, not into the past, and keeps 0 <= delay < period |
| AyChip.Apu.constructor | app/src/main/cpp/gme/Ay_Apu.cpp:97-118 | reset satisfies the invariant, with the waves built |
| AyChip.Apu.RunUntil | app/src/main/cpp/gme/Ay_Apu.cpp:164-395 | every channel with an output sounds as the bits of its registers say: at a volume that holds, silence, a square wave one period a flip, noise by the low bit of its register, or both in turn at tone and noise times; an envelope alone goes through its row of the wave table; its tone goes on heard or not; with bits 3 to 5 of register 7 set the noise stands still; besides, it plays the plan the registers give it from the phase, delay and noise the last run left; the envelope moves by the time passed; the invariant is kept |
| AyChip.Apu.RunAll | app/src/main/cpp/gme/Ay_Apu.cpp:184-395 | the channels one after the other, then the envelope in closed form |
| AyChip.Apu.RegistersMean | app/src/main/cpp/gme/Ay_Apu.cpp:184-233 | what a channel plays is what the bits of its registers say |
| AyChip.Apu.AsMeant | app/src/main/cpp/gme/Ay_Apu.cpp:184-375 | so a channel with an output is left as they say |
| AySound.RunSounds | app/src/main/cpp/gme/Ay_Apu.cpp:184-375 | whatever the registers, a run sounds as they say |
| AySound.ToneHeard | app/src/main/cpp/gme/Ay_Apu.cpp:320-336 | tone alone: from its delay on the output flips between the volume and silence, once a period |
| AySound.NoiseHeard | app/src/main/cpp/gme/Ay_Apu.cpp:294-310 | noise alone: the output follows the low bit of the noise register, once a noise period, which is left where the run ends |
| AySound.LevelHeard | app/src/main/cpp/gme/Ay_Apu.cpp:269-280 | neither: one step to the level |
| AySound.EnvelopeHeard | app/src/main/cpp/gme/Ay_Apu.cpp:264-367 | a moving envelope alone: the output goes through the wave, a position for each expiration |
| AySound.MixedHeard | app/src/main/cpp/gme/Ay_Apu.cpp:285-350 | tone and noise at a volume that holds: up and down in turn, at tone and noise times only |
| AySound.AllPlaced | app/src/main/cpp/gme/Ay_Apu.cpp:264-367 | tone or noise under a moving envelope: steps where it expires, and at tone and noise times, nowhere else |
| AySound.ToneGoesOn | app/src/main/cpp/gme/Ay_Apu.cpp:235-246 | heard or not, the tone has flipped once for every expiration |
| AySound.NoiseStands | app/src/main/cpp/gme/Ay_Apu.cpp:369-375 | noise that no channel lets through stands still |
| AySound.NoiseTaps | app/src/main/cpp/gme/Ay_Apu.cpp:301-307 | one step of the noise register, bit by bit |
| AySound.NoiseNeverMerges | app/src/main/cpp/gme/Ay_Apu.cpp:301-307 | no two of its states lead to the same one, so it never falls into a shorter cycle |
| AySound.ShapeByBits | app/src/main/cpp/gme/Ay_Apu.cpp:52-90 | the envelope shapes by the bits attack, alternate and hold |
| AySound.VolumesDouble | app/src/main/cpp/gme/Ay_Apu.cpp:40-50 | the volumes double every two steps, to within rounding, up to 255 |
| AyChip.Apu.RunOsc | app/src/main/cpp/gme/Ay_Apu.cpp:185-375 | one channel: its plan is played from its own state and the noise of the start, or nothing without an output; phase, delay and noise are left where the plan ends |
| AyChip.Apu.RunChannels | app/src/main/cpp/gme/Ay_Apu.cpp:184-375 | so for all three: each starts from the same noise, and the last that runs it leaves its state |
| AyApu.BuildWaves | app/src/main/cpp/gme/Ay_Apu.cpp:70-90 | the constructor's loops give each of the eight waves its three ramps |
| AyApu.BuildWave | app/src/main/cpp/gme/Ay_Apu.cpp:75-89 | one wave |
| AyApu.WaveInTable | app/src/main/cpp/gme/Ay_Apu.cpp:131-139 | the pointer is set one row on and positions are negative; each mode plays its own row, and all positions lie in the table if and only if the byte written is below 16 or has bit 3 clear; otherwise none does |
| AyApu.WaveBeyondTable | app/src/main/cpp/gme/Ay_Apu.cpp:131-139 | the byte 0x18 plays from row 17 of 8 |
| AyApu.SimpleShapes | app/src/main/cpp/gme/Ay_Apu.cpp:134-136 | the simple shapes are one ramp down or up, then silence |
| AyChip.Apu.KeepEnvelope | app/src/main/cpp/gme/Ay_Apu.cpp:379-392 | the envelope after the time passed |
| AyChip.Apu.WriteData | app/src/main/cpp/gme/Ay_Apu.cpp:120-159 | a write, of any value, changes its register and the timer of its own oscillator or the envelope only |
| AyChip.Apu.Write | app/src/main/cpp/gme/Ay_Apu.h:78-82 | everything up to its time sounds from the state before, as the registers said, and is left as a run leaves it; then the register has its value, a period write moves its timer, and a write to register 13 restarts the envelope |
| AyChip.Apu.EndFrame | app/src/main/cpp/gme/Ay_Apu.h:97-104 | the rest of the frame sounds from the state before, as the registers say, then the clock becomes relative to the new one |
| BlipKernel.PhaseExact | app/src/main/cpp/gme/Blip_Buffer.cpp:283-300 | after adjust_impulse a phase sums to the kernel unit if and only if its correction fitted 16 bits, for even kernel units and any even width |
| BlipKernel.AllPhasesExact | app/src/main/cpp/gme/Blip_Buffer.cpp:283-300 | all 64 phases do if and only if every correction fitted |
| BlipKernel.CorrectionOverflows | app/src/main/cpp/gme/Blip_Buffer.cpp:283-300 | an empty table at full scale: the correction does not fit, and phase 0 weighs the opposite of the unit |
| BlipKernel.AdjustImpulse | app/src/main/cpp/gme/Blip_Buffer.cpp:283-300 | each corrected entry takes what its pair of columns lacks; nothing else changes |
| BlipKernel.ColumnError | app/src/main/cpp/gme/Blip_Buffer.cpp:290-295 | what a pair of columns lacks |
| BlipKernel.ColumnAfter | app/src/main/cpp/gme/Blip_Buffer.cpp:298 | a correction changes its own column's sum only |
| BlipKernel.TapsTotal | app/src/main/cpp/gme/Blip_Buffer.h:361-397 | the weight of the kernel a phase uses is the sum of its two columns |
| BlipKernel.TapsAreImpulse | app/src/main/cpp/gme/Blip_Buffer.h:361-397 | all 64 kernels are the same symmetric impulse, taken every 64 entries and delayed by the phase |
| BlipBuffer.Conservation | app/src/main/cpp/gme/Blip_Buffer.h:336-441 | with an adjusted table any sequence of transitions adds exactly the sum of their sizes times the kernel unit |
| BlipBuffer.AdjustedConserves | app/src/main/cpp/gme/Blip_Buffer.cpp:283-300 | so with the table adjust_impulse leaves, if no correction overflowed |
| BlipBuffer.Buffer.DrawAll | app/src/main/cpp/gme/Blip_Buffer.h:450-453 | over a run of offset calls with that table the total of the buffer's stream grows by exactly the sum of the steps, scaled |
| BlipBuffer.TotalAddKernel | app/src/main/cpp/gme/Blip_Buffer.h:372-397 | a kernel adds exactly its own total |
| BlipBuffer.Buffer.constructor | app/src/main/cpp/gme/Blip_Buffer.cpp:67-76 | an empty buffer is the window at the start of a silent stream |
| BlipBuffer.Buffer.Offset | app/src/main/cpp/gme/Blip_Buffer.h:450-453 | adds the scaled kernel of the transition's phase to the stream at its place, and its weight to the stream's total; samples already read stay what they were |
| BlipBuffer.Buffer.OffsetResampled | app/src/main/cpp/gme/Blip_Buffer.h:337-441 | the unrolled taps add one column forwards and the mirrored one backwards |
| BlipBuffer.Buffer.ForwardTaps | app/src/main/cpp/gme/Blip_Buffer.h:384-390 | the first half |
| BlipBuffer.Buffer.ReverseTaps | app/src/main/cpp/gme/Blip_Buffer.h:390-397 | the second half |
| BlipBuffer.Buffer.EndFrame | app/src/main/cpp/gme/Blip_Buffer.cpp:144-148 | the frame's samples become readable, and nothing reaches beyond the cells kept |
| BlipBuffer.Buffer.WithinFrame | app/src/main/cpp/gme/Blip_Buffer.cpp:144-148 | transitions at or before the frame's end do not |
| BlipBuffer.Buffer.RemoveSamples | app/src/main/cpp/gme/Blip_Buffer.cpp:177-188 | removing samples moves the window along the stream, which goes on with zeros |
| BlipBuffer.Buffer.MoveDown | app/src/main/cpp/gme/Blip_Buffer.cpp:184-186 | cells moved down and zeros behind them |
| BlipBuffer.Buffer.ReadSamples | app/src/main/cpp/gme/Blip_Buffer.cpp:398-437 | the samples read are appended to all those read before, which are always the clamped leaky integrals of the present stream at their own positions; they lie one after the other, or in every other place of a stereo buffer, the first one first, and the rest of it is untouched |
| BlipBuffer.Buffer.ReadOut | app/src/main/cpp/gme/Blip_Buffer.cpp:409-432 | the reading loops: the samples of the stream at their places, and the accumulator after them |
| BlipBuffer.ReadsPartition | app/src/main/cpp/gme/Blip_Buffer.cpp:398-437 | a buffer read in pieces while transitions came in has given the same samples as one whose finished stream was read in one go |
| BlipBuffer.HeardPrefix | app/src/main/cpp/gme/Blip_Buffer.cpp:398-437 | samples depend on the stream before them only |
| BlipBuffer.AccumPrefix | app/src/main/cpp/gme/Blip_Buffer.h:297-298 | the accumulator depends only on what has been read |
| BlipBuffer.LeakAddsUp | app/src/main/cpp/gme/Blip_Buffer.h:297-298 | nothing is lost of the differences read but the leak: 2^-bass of every accumulator, to within less than 1 each |
| BlipBuffer.OutSampleClamps | app/src/main/cpp/gme/Blip_Buffer.cpp:415-419 | the clamp gives the nearest 16-bit value for every accumulator |
| BlipBuffer.Buffer.MixSamples | app/src/main/cpp/gme/Blip_Buffer.cpp:439-458 | adds ready-made samples as the steps between them |
| BlipBuffer.StepsSum | app/src/main/cpp/gme/Blip_Buffer.cpp:450-457 | their running sum is the input at full scale, and in the end nothing is left |
| BlipBuffer.Buffer.CountClocks | app/src/main/cpp/gme/Blip_Buffer.cpp:163-175 | the least number of clocks after which the samples are there, and then exactly those |
| BlipBuffer.PlayFrames | app/src/main/cpp/gme/Dual_Resampler.cpp:58-77 | over any number of frames, each count_clocks long and with the steps of the chip drawn, every frame ends with exactly the samples asked for; they are what the buffer hands out, in order |
| BlipBuffer.PlayFrame | app/src/main/cpp/gme/Dual_Resampler.cpp:58-77 | one of them |
| BlipBuffer.ClocksForLeast | app/src/main/cpp/gme/Blip_Buffer.cpp:172-174 | the rounded-up division is that least number |
| BlipBuffer.ExactFrame | app/src/main/cpp/gme/Blip_Buffer.cpp:172-174 | a frame of that length ends with exactly the samples asked for, wherever it starts, if and only if a clock is no longer than a sample |
| DualResampler.DualResampler.DualPlay | app/src/main/cpp/gme/Dual_Resampler.cpp:79-109 | for any sequence of counts the output is the next stretch of the frames one after the other, none lost or repeated |
| DualResampler.DualResampler.EmptyExtra | app/src/main/cpp/gme/Dual_Resampler.cpp:81-91 | what was left comes first |
| DualResampler.DualResampler.WholeFrame | app/src/main/cpp/gme/Dual_Resampler.cpp:94-99 | whole frames go straight to the output, though their mixing uses the frame buffer |
| DualResampler.DualResampler.Extra | app/src/main/cpp/gme/Dual_Resampler.cpp:102-108 | a last frame is kept for the next call |
| DualResampler.DualResampler.PlayFrame | app/src/main/cpp/gme/Dual_Resampler.cpp:58-77 | the next frame, mixed into place |
| DualResampler.DualResampler.MixSamples | app/src/main/cpp/gme/Dual_Resampler.cpp:111-136 | mixing in place gives the same frame as mixing elsewhere |
| DualResampler.DualResampler.CopyOut | app/src/main/cpp/gme/Dual_Resampler.cpp:87 | a copy |
| DualResampler.DualResampler.constructor | app/src/main/cpp/gme/Dual_Resampler.h:44-48 | starts with nothing left over |
| DualResampler.Sources.PiecesJoin | app/src/main/cpp/gme/Dual_Resampler.cpp:79-109 | consecutive pieces join into the stream |
| DualResampler.Sources.FrameIsMix | app/src/main/cpp/gme/Dual_Resampler.cpp:111-136 | a pair of a frame is twice the resampled sound plus the other buffer's, the nearest 16-bit value |
| FirResampler.Resampler.Read | app/src/main/cpp/gme/Fir_Resampler.h:99-169 | reads as many pairs as are wanted and have their window written, and each is the output the whole input gives at its place, across calls |
| FirResampler.Resampler.ReadPairs | app/src/main/cpp/gme/Fir_Resampler.h:104-160 | the loop: exact count, phase and position at the end |
| FirResampler.Resampler.ReadNext | app/src/main/cpp/gme/Fir_Resampler.h:117-157 | one pass of it |
| FirResampler.Resampler.ReadPair | app/src/main/cpp/gme/Fir_Resampler.h:119-146 | one output pair and the step to the next window, which does not pass the end of the input |
| FirResampler.Resampler.Convolve | app/src/main/cpp/gme/Fir_Resampler.h:127-137 | two points a pass give the whole dot product |
| FirResampler.Resampler.NextPhase | app/src/main/cpp/gme/Fir_Resampler.h:139-153 | phase and skip pattern go round together |
| FirResampler.Resampler.FirstPhase | app/src/main/cpp/gme/Fir_Resampler.h:105-107 | they resume where the last call stopped |
| FirResampler.Resampler.MoveDown | app/src/main/cpp/gme/Fir_Resampler.h:164-166 | the leftover input moves to the front |
| FirResampler.Resampler.Write | app/src/main/cpp/gme/Fir_Resampler.h:93-97 | written samples are appended to the input |
| FirResampler.Resampler.constructor | app/src/main/cpp/gme/Fir_Resampler.cpp:70-85 | silence of one pair less than a window |
| FirResampler.Filter.PosClosedForm | app/src/main/cpp/gme/Fir_Resampler.cpp:120-134 | windows of later cycles lie whole cycles further: the fractional ratio does not drift |
| FirResampler.Filter.PosInRound | app/src/main/cpp/gme/Fir_Resampler.h:139-148 | one round of phases takes a step for each and a pair more for each bit set in the skip pattern |
| FirResampler.Filter.OutIs | app/src/main/cpp/gme/Fir_Resampler.h:137-156 | an output is the upper part of the dot product, as a 16-bit number |
| FirResampler.Filter.OutPrefix | app/src/main/cpp/gme/Fir_Resampler.h:119-146 | input that arrives later cannot change an output |
| SapCpu.Cpu.Run | app/src/main/cpp/gme/Sap_Cpu.cpp:77-180 | the relative clock does what a simple absolute one does; base is end_time, or the interrupt's time if that is let in and earlier; an instruction starts if and only if its time is before it |
| SapCpu.Cpu.Step | app/src/main/cpp/gme/Sap_Cpu.cpp:162-180 | the sign test decides exactly that |
| SapCpu.Cpu.Execute | app/src/main/cpp/gme/Sap_Cpu.cpp:793-909 | every instruction that touches the I flag realigns the base; others only add clocks |
| SapCpu.Cpu.HandleCli | app/src/main/cpp/gme/Sap_Cpu.cpp:865-894 | CLI keeps the absolute time; an interrupt already due waits for one more instruction if any time is left |
| SapCpu.Cpu.HandleSei | app/src/main/cpp/gme/Sap_Cpu.cpp:896-909 | SEI keeps the absolute time and moves the base to the end |
| SapCpu.Cpu.HandleRti | app/src/main/cpp/gme/Sap_Cpu.cpp:793-811 | RTI takes the flag from the stack and realigns if it changed |
| SapCpu.Cpu.UpdateEndTime | app/src/main/cpp/gme/Sap_Cpu.h:65-71 | the delta returned keeps the absolute time |
| SapCpu.Cpu.SetIrqTime | app/src/main/cpp/gme/Sap_Cpu.h:73-76 | alignment and absolute time |
| SapCpu.Cpu.SetEndTime | app/src/main/cpp/gme/Sap_Cpu.h:78-81 | alignment and absolute time |
| SapCpu.Cpu.constructor | app/src/main/cpp/gme/Sap_Cpu.cpp:41-58 | reset |
| SapCpu.RunSplit | app/src/main/cpp/gme/Sap_Cpu.cpp:77-186 | stopping on the way changes nothing if and only if the run does not stop with an instruction that clears the I flag at or after that time, before the end, with an interrupt already due |
| SapCpu.NoIrqNoLoss | app/src/main/cpp/gme/Sap_Cpu.cpp:883-890 | that cannot happen while no interrupt is due before the end |
| SapCpu.SplitCanLoseDelay | app/src/main/cpp/gme/Sap_Cpu.cpp:883-890 | a run that loses the instruction after CLI by it |
| SapCpu.RunEnds | app/src/main/cpp/gme/Sap_Cpu.cpp:976-990 | a run ends at its limit, idle, or halted |
| SapCpu.ClocksAddUp | app/src/main/cpp/gme/Sap_Cpu.cpp:162-990 | a run takes exactly the clocks of the instructions executed, 7 for a BRK, interrupts due or not, and leaves the flag they leave |

## Left out

- Resampler.ChipAudio.SetupResampler: the older interpolating resampler (mode 0x00), the copying mode's output, a chip without a rate (0xFF) and the ResampleMode option are not modelled; rates of 2^21 and more are excluded, where the 32-bit position wraps (PosFitsExactly).
- Resampler.ChipAudio.FillBuffer: one chip and one sample per call, as the only caller asks; paired chips, muting, master volume, fading and the 16-bit limit of the mix are not modelled.
- Resampler.ChipAudio.Downsample: chips more than 250 times faster than the output are excluded, because their samples would not fit the buffer.
- VgmPlayer.Player.InterpretFile: DAC streams, pausing and automatic stop of skipping are not modelled; the roughly one hundred chip commands are one event each with the command's length.
- VgmPlayer.SeekIsPlay: sample bank 0 is modelled with its bytes, other banks and ROM blocks as events; the contents of a compressed block are a function of the block and its table here, which `DataBlock` models, and the function is left free, because a block with too little input leaves what the allocator put there: the results hold for every one; 32-bit wrap of the sample counters is not modelled.
- Gcd.RateFractions: the products of the rates are not cut to 32 bits.
- DataBlock.DecompressDataBlk: values of 1 to 16 bits, codes no longer than values and two readable bytes behind the block are taken for granted, as the source does; a table entry that does not exist reads as 0.
- OplCache.Cache.WriteReg: at full volume only; volume scaling of total levels is floating point.
- MusicEmu.Player.Play: errors reported by an emulator count as the end of its track; track remapping, warnings and voice muting are not modelled.
- MusicEmu.Player.PlaySilence: below 171 samples a second the silence limit is shorter than a block, and a block read ahead may be dropped with it.
- MusicEmu.PlayToEnd: with detection on throughout, not for one that a fade turns on later.
- MusicEmu.Player.SetFade: a fade shorter than one step, which would divide by zero, is excluded.
- BlipBuffer.Buffer.ReadSamples: cells and accumulator do not wrap at 32 bits; OutSampleClamps covers every 32-bit accumulator.
- BlipBuffer.Buffer.OffsetResampled: the taps unrolled by hand, and the read-ahead version for other processors, are two loops here.
- BlipBuffer.Buffer.EndFrame: the frame must end late enough for what was drawn or mixed into it, which the source leaves to its callers.
- NesDmc.Apu.RunUntil: the write to 0x4011, nonlinear mixing and PAL mode switching are not modelled.
- NesFrames.Apu.RunUntil: the length, sweep and envelope units themselves, and reading the status register, are not modelled; what clocks them is logged.
- SccApu.Osc.RunUntil: one oscillator at a time; the loop over the five and their shared waves is not modelled.
- Fme7Apu.Osc.RunUntil: one oscillator at a time, likewise.
- AyChip.Apu.RunUntil: for tone or noise under a moving envelope the register-level statement says at which times steps may come, and the plan played says which; for all other settings it gives every step or, for tone and noise together, their signs, sizes and possible times.
- AyChip.Apu.WriteData: register values are not cut to 8 bits; where a shape byte leads beyond the wave table, the source reads what happens to be there, and a volume of 0 stands for it here.
- AyApu.RunChannel: periods below the audible range play at half volume with the tone off, and noise that is not heard stands still, as in the source.
- DualResampler.DualResampler.PlayFrame: the two sources of a frame are sequences; that the FIR resampler delivers a full frame rests on its inexact estimate of available input.
- FirResampler.Resampler.Read: skip_input, avail and input_needed are not modelled; the step must not exceed the window, or the source would pass the end of its input. Accumulators do not wrap.
- SapCpu.Cpu.Run: instructions are their clocks and their effect on the I flag; registers, memory and flags are not modelled. The hook for interrupts while out of time is not used by the Atari emulator.
- The triangle channel moves its phase differently when muted, and muted NES and AY noise is approximate by design: neither is claimed equal to the audible loop.
- Effects_Buffer, Classic_Emu, Stereo_Buffer and the chip emulators are not part of this model: delay lines and address masks add only easy members.
- File parsing, compression, threads, console and sound output are not part of this model.
- Filter design (gen_sinc, treble_eq, bass_freq) and volume curves are floating point and are parameters here.
