# Verified models of the device tree library and the TileLink adapter

This project models, in Dafny 4.11, the most intricate parts of the repository and proves
properties of the models:

- **libfdt**, the flattened device tree library in the bundled Spike
  (`original/Fuzzer/ISASim/riscv-isa-sim/fdt/`): the token reader and tree walker, the lookups,
  the in-place editor, the overlay's phandle shift, reference update and merger, the NOP-ing editor,
  the sequential writer and the routines that move and pack a blob;
- the **TileLink TL-C adapter** (`execution/src/adapters/tilelink/`), a coherence protocol run as
  interleaved coroutine steps against the core under test;
- the **fuzzer** (`original/Fuzzer/`): the relabelling that keeps every jump of a mutated program
  forward (`Mutator`), the text form of its programs (`TestFile`), the search for a minimal
  failing program (`Minimizer`) and the counters its processes share (`Counters`).

`dafny verify dfyconfig.toml` checks everything.

## How the device tree library is modelled

A blob is a byte array; the C functions that work on it are methods that modify it in place
(`Core`, `Buffer`, `Edit`, `Nodes`, `Overlay`, `Fragments`, `InPlace`, `Phandles`, `Fixups`,
`LocalReferences`, `Aliases`, `Writer`, `Finish`, `Relocate`, `PathLoops`). `Literals` ties the model
to blobs spelled out byte by byte. Three layers say what the bytes mean:

- `Structure.Items` is the laid-out content of a structure block: properties with their name
  offsets, NOP tags, nodes. `Holds(s, o, it)` says that the bytes `s` from `o` on encode `it`
  (section 5.4 of the Devicetree Specification v0.3); alignment padding is left free, as the
  format leaves it. `Ctx` is such content with one open place, so that "the node at offset `o`"
  is `Plug(c, Node(name, body, rest))` with `Off(c) == o`.
- `Meaning.Tree` is the device tree itself: names, values, children; NOPs, padding and the
  placement of strings are gone. `Mean(it, t)` reads items under the strings block `t`.
- `Blob` has the header and the layouts: `Ready` (what the editors accept), `Edited` (what an
  edit may change), `Slack` (unused bytes).

Each editing method states its whole effect: the tree before and after (`Now`), what stays, and
the exact number of bytes it takes, so that it fails with NOSPACE exactly when there are fewer.
The pure functions in `Walk`, `Read` and `Meaning` specify the loops; the theorems are about them.

`-ASTRAY` (`Walk.ASTRAY`) stands for no answer at all: the code goes round for ever, or reads or
writes outside its buffer. The specifications of the walks, the path loops, the aliases, the
writer's names, the patched values and the updated references say for which inputs that happens, and
the methods stop there. In the lookups (`Read.PropertyFrom`, `Core.ReadProperty`) a property whose
name offset lies behind the structure block counts as such an input too, even where those bytes are
still the buffer's; `Validate.CheckWalk` reads them.

The lists of an overlay's local references stand in the blob that they are used on. `Fixups.Live` is
the update as the code does it, each list read as it is by then; `References.UpdateRefs` is what the
lists say as they stood at the start. A node is addressed by its position, the number of the child
to take on each level (`Shapes.Spot`, `Shapes.TreeAt`), which no change of a value moves
(`Shapes.Alike`).

## How the adapter is modelled

`TileLink` has one function per coroutine iteration, on the state that the coroutines share; a
failing assertion or a path that cannot run as written yields `None`. `Client` is the core under
test: it answers each probe once and in order, reports its permissions truthfully, keeps one
acquire outstanding per block and fewer in all than the adapter has sinks, does not interleave the
beats of a message, and does not write through the adapter to a block that it holds or is
acquiring; the host asks for probes of listed blocks only. `Coherence.AcquireExact` and
`Coherence.HostProbeExact` say that one acquire more, or a probe of another block, does meet a
failing assertion. `Run` is any interleaving of both.
`Sys.latest` is the value last written to each word, by anyone; coherence is stated against it.
`TlAdapter.Adapter` is the adapter as the object it is, with its fields, free lists and callback
table, each method proved to take one step of the `TileLink` machine.

`Replies` keeps a log of every run beside it: the asks made, those open, those answered, the messages
owed and the messages the core has taken. Its words for asks (`Asks`) are those of the asker; what
each is owed (`Replies.Reply`) is stated without the adapter's callbacks.

## Where code and documentation differ

Each of these is a lemma with the input, beside the condition that excludes it, exact unless said
otherwise:

- `fdt_next_tag` adds the length of a property in 32 bits. `Walk.NextTagExact` says exactly when
  that differs from the unbounded addition, `Walk.TagAdvances` when the offset does not move.
  `fdt_check_full` therefore accepts a block that decodes to nothing (`Validate.WrapAccepted`), and
  runs for ever on another (`Validate.WrapStays`); `Validate.CheckWalkDecides` is the exact
  relation.
- A child name without unit address also answers for `name@unit` (`Walk.Matches`). An overlay's
  node may land in another one (`Merging.StemCaptures`), and the path of a node may lead to its
  elder sibling (`Paths.ElderAnswers`). `Merging.MergedNames`, `Merging.OneMergedExact`,
  `Merging.MergedName`, `Merging.MergedChild` and `PathLoops.PathRoundTrip` say exactly when not.
- `fdt_get_path` for an offset behind the root runs off the front of its buffer, where `libfdt.h`
  promises BADOFFSET (`PathLoops.GetPathOutside`).
- `fdt_add_string_` compares in unsigned arithmetic and accepts a name too long for the buffer
  (`Writer.LongNameAccepted`, exact condition `Writer.RefusedExact`); so does
  `fdt_setprop_inplace_namelen_partial` an index that wraps (`InPlace.IndexWraps`,
  `InPlace.AcceptedExact`).
- An overlay whose local fixups list themselves gets its references from lists that have changed
  by then (`LocalReferences.ListsItself`); when they do not, the lists do what they say
  (`LocalReferences.ListsAreRead`; the condition is sufficient, as a list may also change after its
  last use, without effect). A place far outside its value is read before it is refused
  (`LocalReferences.FarOutside`).
- The lists are shifted along with the phandles, so that a listed phandle is never shifted twice:
  such an overlay is refused whenever anything was shifted (`LocalReferences.ListedPhandle`). A
  list from elsewhere would do it (`Renumbering.PhandleTwice`).
- An alias may come back to itself; then the lookup never ends (`Aliases.AliasOfItself`).

## Model

| member | source | states |
|---|---|---|
| `Walk.WalkVisitsPreorder` | original/Fuzzer/ISASim/riscv-isa-sim/fdt/fdt.c:202-240 | On a structure block that encodes a tree, with NOPs anywhere, repeated fdt_next_node calls report exactly the nodes, in pre-order and at their depths, and stop with NOTFOUND. |
| `Walk.SubnodesEnumerateChildren` | original/Fuzzer/ISASim/riscv-isa-sim/fdt/fdt.c:242-268 | fdt_first_subnode and then fdt_next_subnode report exactly the offsets of the direct children, in order. |
| `Walk.SubnodeOffsetOk` | original/Fuzzer/ISASim/riscv-isa-sim/fdt/fdt_ro.c:211-234 | fdt_subnode_offset returns the first direct child that answers to the name under the stem rule, never a deeper node, or NOTFOUND. |
| `Walk.MatchesIff` | original/Fuzzer/ISASim/riscv-isa-sim/fdt/fdt_ro.c:13-32 | A node answers to a name if and only if that is its own, or has no at sign and is its own up to the at sign. |
| `Walk.NodeEndOk` | original/Fuzzer/ISASim/riscv-isa-sim/fdt/fdt_wip.c:73-81 | fdt_node_end_offset_ is the offset just past the END_NODE that matches the node. |
| `Walk.NextTagExact` | original/Fuzzer/ISASim/riscv-isa-sim/fdt/fdt.c:131-182 | Reading a tag with the code's 32-bit addition equals reading it without a width limit if and only if the property length does not wrap into the block. |
| `Walk.TagAdvances` | original/Fuzzer/ISASim/riscv-isa-sim/fdt/fdt.c:154-181 | A tag that is read moves the offset on if and only if it is not a property of length 0xFFFFFFF4. |
| `Blob.OffsetPtrExact` | original/Fuzzer/ISASim/riscv-isa-sim/fdt/fdt.c:114-129 | The unsigned comparisons of fdt_offset_ptr decide exactly whether the bytes lie in the structure block. |
| `Core.ReadNextTag` | original/Fuzzer/ISASim/riscv-isa-sim/fdt/fdt.c:131-182 | For every blob and offset the method returns the tag and the next offset that NextTag gives with the 32-bit addition, errors included; `Literals.SmallestReads` has the tags by number. |
| `Literals.SmallestReads` | original/Fuzzer/ISASim/riscv-isa-sim/fdt/fdt.h:53-58 | In the bytes 00000001 00000000 00000002 00000009 the reader finds the tag 1 and offset 8, the tag 2 and offset 12, the tag 9 and offset 16. |
| `Literals.SmallestMeans` | original/Fuzzer/ISASim/riscv-isa-sim/fdt/fdt.c:131-240 | These bytes are one node without content: the walk reports offset 0 at depth 1 and ends, and the block is accepted. |
| `Literals.SmallMeans` | original/Fuzzer/ISASim/riscv-isa-sim/fdt/fdt.c:131-182 | With a NOP tag and a property in between, spelled out in bytes, they are a node with that property, under its name in the strings. |
| `Literals.WriteSmallest` | original/Fuzzer/ISASim/riscv-isa-sim/fdt/fdt_sw.c:105-376 | For every buffer, the calls that create, open and close a nameless root and finish leave exactly those 16 bytes as structure block, or fail with NOSPACE if and only if the buffer has fewer than 80 bytes. |
| `Literals.HeaderLayout` | original/Fuzzer/ISASim/riscv-isa-sim/fdt/fdt.h:12-32 | A header spelled out in bytes has its fields in the format's order, passes the header check and is one the editors accept. |
| `Literals.ReserveBytes` | original/Fuzzer/ISASim/riscv-isa-sim/fdt/fdt_sw.c:180-198 | A reserve map entry spelled out in bytes: address, then size. |
| `Literals.NamesSpelled` | original/Fuzzer/ISASim/riscv-isa-sim/fdt/fdt_overlay.c:638-842 | The property, node and path names that the code looks for, as strings. |
| `Blob.HeaderErrors` | original/Fuzzer/ISASim/riscv-isa-sim/fdt/fdt.c:73-112 | BADMAGIC, BADVERSION and TRUNCATED each if and only if: the magic number is another, the versions are not supported, something does not lie between header and total size. |
| `Blob.RwProbeAcceptsOrdered` | original/Fuzzer/ISASim/riscv-isa-sim/fdt/fdt_rw.c:25-40 | A blob that passes the header check is accepted for editing if and only if its blocks are ordered, and otherwise the error is TRUNCATED, BADVERSION or BADLAYOUT by size, version and layout. |
| `Core.ReadNextNode` | original/Fuzzer/ISASim/riscv-isa-sim/fdt/fdt.c:202-240 | The loop of fdt_next_node computes the walk's NextNode for any offset and depth. |
| `Core.ReadNextSubnode` | original/Fuzzer/ISASim/riscv-isa-sim/fdt/fdt.c:253-268 | The loop of fdt_next_subnode computes NextSubnode. |
| `Core.ReadSubnodeOffset` | original/Fuzzer/ISASim/riscv-isa-sim/fdt/fdt_ro.c:211-228 | The loop of fdt_subnode_offset_namelen computes SubnodeOffset. |
| `Validate.DecodeUnique` | original/Fuzzer/ISASim/riscv-isa-sim/fdt/fdt_ro.c:861-894 | Two trees encoded by the same structure block at the same place are the same: decoding is a function. |
| `Validate.CheckWalkDecides` | original/Fuzzer/ISASim/riscv-isa-sim/fdt/fdt_ro.c:861-894 | A structure block decodes to properties and nodes, every property with a name, if and only if the walk of fdt_check_full accepts it and meets no property whose length wraps. |
| `Validate.WrapAccepted` | original/Fuzzer/ISASim/riscv-isa-sim/fdt/fdt_ro.c:861-894 | A block of one property whose length wraps is accepted and decodes to nothing. |
| `Validate.WrapStays` | original/Fuzzer/ISASim/riscv-isa-sim/fdt/fdt_ro.c:861-894 | On a property whose length adds up to nothing the walk never ends. |
| `Validate.CheckFull` | original/Fuzzer/ISASim/riscv-isa-sim/fdt/fdt_ro.c:837-894 | fdt_check_full returns the error of the first check of header, size, reserve map and walk that fails; what it accepts decodes, and what decodes is accepted, unless a wrapping property is met. |
| `Read.GetPropertyOk` | original/Fuzzer/ISASim/riscv-isa-sim/fdt/fdt_ro.c:379-407 | Property lookup finds the first property of that name in front of the first child, or NOTFOUND. |
| `Read.FindString` | original/Fuzzer/ISASim/riscv-isa-sim/fdt/fdt.c:270-280 | fdt_find_string_ returns the first place where the terminated string stands, and -1 exactly when there is none. |
| `Read.NodeByPhandleOk` | original/Fuzzer/ISASim/riscv-isa-sim/fdt/fdt_ro.c:657-680 | fdt_node_offset_by_phandle returns the first node in pre-order with that phandle, or an error when there is none or the phandle is invalid. |
| `Read.MaxPhandleOk` | original/Fuzzer/ISASim/riscv-isa-sim/fdt/fdt_ro.c:103-129 | fdt_find_max_phandle returns the largest phandle of all nodes. |
| `Read.PathOk` | original/Fuzzer/ISASim/riscv-isa-sim/fdt/fdt_ro.c:259-278 | The loop of fdt_path_offset follows the components of a path to the node they name, or returns NOTFOUND. |
| `Aliases.ReadPathOffset` | original/Fuzzer/ISASim/riscv-isa-sim/fdt/fdt_ro.c:236-284 | For every decoded blob and path fdt_path_offset leads down from the root, or from where the alias that the path begins with leads, through any chain of aliases; BADPATH exactly when there is no such alias, and no answer when a chain comes back to itself. |
| `Aliases.AliasStands` | original/Fuzzer/ISASim/riscv-isa-sim/fdt/fdt_ro.c:245-257 | A path that begins with an alias leads where the path with the alias's value in its place leads, whatever follows and whether the value begins with an alias itself; BADPATH if there is no such alias. |
| `Aliases.AliasOfPath` | original/Fuzzer/ISASim/riscv-isa-sim/fdt/fdt_ro.c:236-279 | With an alias of an absolute path, the path leads where the value with the rest behind it leads from the root; BADPATH if and only if /aliases or the property is missing. |
| `Aliases.AliasChain` | original/Fuzzer/ISASim/riscv-isa-sim/fdt/fdt_ro.c:245-257 | Through any chain of different aliases a path leads where the last path of the chain leads. |
| `Aliases.AliasOfItself` | original/Fuzzer/ISASim/riscv-isa-sim/fdt/fdt_ro.c:245-257 | With an alias that stands for itself the lookup never ends. |
| `PathLoops.GetPathOk` | original/Fuzzer/ISASim/riscv-isa-sim/fdt/fdt_ro.c:521-571 | fdt_get_path of a node is the names from the root down to it, or NOSPACE exactly when they do not all fit with their slashes. |
| `PathLoops.PathRoundTrip` | original/Fuzzer/ISASim/riscv-isa-sim/fdt/fdt_ro.c:236-279 | For non-empty, slash-free names, fdt_path_offset leads the path built by fdt_get_path back to the node's offset if and only if on no level an elder sibling answers to the name on the path. |
| `Paths.ByPathReturns` | original/Fuzzer/ISASim/riscv-isa-sim/fdt/fdt_ro.c:236-279 | Following the names around a node leads to it when no elder sibling answers on the way, and nowhere or further in front otherwise. |
| `Paths.ElderAnswers` | original/Fuzzer/ISASim/riscv-isa-sim/fdt/fdt_ro.c:14-34 | A node a behind its sibling a@1: the path /a leads to the sibling. |
| `PathLoops.RootRoundTrip` | original/Fuzzer/ISASim/riscv-isa-sim/fdt/fdt_ro.c:548-561 | The root's path is a single slash and leads back to offset 0. |
| `PathLoops.GetPathOutside` | original/Fuzzer/ISASim/riscv-isa-sim/fdt/fdt_ro.c:531-545 | fdt_get_path goes astray exactly for the offsets at or behind the end of the root. |
| `PathLoops.ParentOk` | original/Fuzzer/ISASim/riscv-isa-sim/fdt/fdt_ro.c:573-628 | fdt_parent_offset of a node is the offset of the node it stands in; the root has none. |
| `PathLoops.ParentOfChild` | original/Fuzzer/ISASim/riscv-isa-sim/fdt/fdt_ro.c:620-628 | fdt_parent_offset of every child that first/next_subnode report for a node, the root included, is that node. |
| `PathLoops.ReadPath` | original/Fuzzer/ISASim/riscv-isa-sim/fdt/fdt_ro.c:521-571 | For every block and offset the loop with its pops and pushes on the buffer leaves the path that GetPath determines, terminated. |
| `PathLoops.ReadSupernode` | original/Fuzzer/ISASim/riscv-isa-sim/fdt/fdt_ro.c:573-607 | For every block and offset the loop computes Supernode: the last node at the wanted depth up to the target, and the target's depth, or the error. |
| `PathLoops.ReadParent` | original/Fuzzer/ISASim/riscv-isa-sim/fdt/fdt_ro.c:609-628 | Node depth and then the ancestor one level up, for every block and offset. |
| `Structure.Replace` | original/Fuzzer/ISASim/riscv-isa-sim/fdt/fdt_rw.c:80-93 | If bytes are spliced in place of an open place of an encoded tree, and they encode y, the whole encodes the tree with y in that place. |
| `Structure.ReplaceBlock` | original/Fuzzer/ISASim/riscv-isa-sim/fdt/fdt_rw.c:80-93 | The same for a complete structure block with its END tag. |
| `Meaning.MeanPlug` | original/Fuzzer/ISASim/riscv-isa-sim/fdt/fdt_rw.c:170-186 | The meaning of a tree with a part put in is the surroundings' meaning around the part's meaning, so an edit changes the tree exactly at its place. |
| `Edit.SpliceStruct` | original/Fuzzer/ISASim/riscv-isa-sim/fdt/fdt_rw.c:80-93 | The structure block has the new gap, strings and front are intact, header sizes follow; NOSPACE exactly when the blob has fewer unused bytes, and then nothing changed. |
| `Edit.FindAddString` | original/Fuzzer/ISASim/riscv-isa-sim/fdt/fdt_rw.c:115-139 | The returned offset names the string; the strings block is kept, or extended by it; fails exactly when it is absent and does not fit. |
| `Edit.AddProperty` | original/Fuzzer/ISASim/riscv-isa-sim/fdt/fdt_rw.c:188-218 | The node gets the property in front; on failure both blocks are as before, the added string rolled back; fails exactly when name and entry do not fit. |
| `Edit.SetProp` | original/Fuzzer/ISASim/riscv-isa-sim/fdt/fdt_rw.c:261-274 | The tree has the value set at the addressed node and is otherwise the same; the bytes used are exact; fails exactly with fewer unused bytes, leaving both blocks as before. |
| `Edit.AppendProp` | original/Fuzzer/ISASim/riscv-isa-sim/fdt/fdt_rw.c:276-301 | The value grows by the new part, or the property is added; nothing else changes; exact space condition. |
| `Edit.DelProp` | original/Fuzzer/ISASim/riscv-isa-sim/fdt/fdt_rw.c:303-316 | The property is gone and nothing else changed; NOTFOUND exactly when it was not there. |
| `Nodes.SetName` | original/Fuzzer/ISASim/riscv-isa-sim/fdt/fdt_rw.c:220-241 | The node has the new name and the tree is otherwise the same; exact space condition. |
| `Nodes.AddSubnode` | original/Fuzzer/ISASim/riscv-isa-sim/fdt/fdt_rw.c:318-362 | A new empty child behind the properties, at the returned offset; EXISTS exactly when a child answers to the name; NOSPACE exactly when it does not fit; untouched on failure. |
| `Nodes.DelNode` | original/Fuzzer/ISASim/riscv-isa-sim/fdt/fdt_rw.c:364-376 | The node is gone and the rest of the tree is the same. |
| `Edit.GrownEntry` | original/Fuzzer/ISASim/riscv-isa-sim/fdt/fdt_rw.c:286-294 | Making room behind the old value, writing the new length and the new part encodes the property with the appended value. |
| `Edit.FreshEntry` | original/Fuzzer/ISASim/riscv-isa-sim/fdt/fdt_rw.c:204-216 | The fields written into the gap encode the new property. |
| `Nodes.FreshNode` | original/Fuzzer/ISASim/riscv-isa-sim/fdt/fdt_rw.c:344-356 | The fields written into the gap encode an empty node. |
| `Meaning.InsertChildMean` | original/Fuzzer/ISASim/riscv-isa-sim/fdt/fdt_rw.c:334-356 | Inserting behind the leading properties and NOPs inserts the child in the tree. |
| `Meaning.ReplaceChildMean` | original/Fuzzer/ISASim/riscv-isa-sim/fdt/fdt_overlay.c:590-612 | Replacing the content of the node found by name replaces that child's content in the tree. |
| `Overlay.ApplyProperties` | original/Fuzzer/ISASim/riscv-isa-sim/fdt/fdt_overlay.c:562-580 | The property loop sets every property of the overlay node on the target, in order. |
| `Overlay.ApplyChildren` | original/Fuzzer/ISASim/riscv-isa-sim/fdt/fdt_overlay.c:582-609 | The child loop merges every child into its namesake, creating it when it is missing, while insertions shift offsets. |
| `Overlay.ApplyNode` | original/Fuzzer/ISASim/riscv-isa-sim/fdt/fdt_overlay.c:556-612 | The target's content becomes the pure recursive merge with the overlay node's; all other nodes mean what they meant; succeeds whenever there is room for all of it. |
| `Fragments.GetTarget` | original/Fuzzer/ISASim/riscv-isa-sim/fdt/fdt_overlay.c:58-100 | The target is the node with the phandle, or at the path, aliases included, that the fragment names; otherwise the exact error. |
| `Fragments.MergeBlob` | original/Fuzzer/ISASim/riscv-isa-sim/fdt/fdt_overlay.c:618-648 | The tree decoded from the base blob is the fold over the fragments of the pure merge; succeeds whenever every target exists and there is room. |
| `Fragments.TargetMeans` | original/Fuzzer/ISASim/riscv-isa-sim/fdt/fdt_overlay.c:58-100 | Finding a target among the items is finding it in the tree. |
| `Applying.NoOverlay` | original/Fuzzer/ISASim/riscv-isa-sim/fdt/fdt_overlay.c:631-633 | A child of the overlay's root without __overlay__ changes nothing. |
| `Applying.MergesIff` | original/Fuzzer/ISASim/riscv-isa-sim/fdt/fdt_overlay.c:618-648 | The merge succeeds if and only if every fragment with an __overlay__ has a target in the tree as it is when its turn comes. |
| `Applying.NextFragment` | original/Fuzzer/ISASim/riscv-isa-sim/fdt/fdt_overlay.c:621-647 | The result of the first k+1 fragments is that of the next one on the result of the first k. |
| `Applying.FragmentValue` | original/Fuzzer/ISASim/riscv-isa-sim/fdt/fdt_overlay.c:635-644 | After one fragment a property at a path below the target has the fragment's value where that sets one and the base's elsewhere, and at every position that is not the target's or below it the value it had. |
| `Applying.PhandleFirst` | original/Fuzzer/ISASim/riscv-isa-sim/fdt/fdt_overlay.c:65-79 | A usable target phandle decides alone, a malformed one is an error, and only without one, or with 0, the target path is used. |
| `Merging.MergedNames` | original/Fuzzer/ISASim/riscv-isa-sim/fdt/fdt_overlay.c:582-609 | The merged node has the children of both and no others if and only if each overlay name, in its turn, is there already or answered by no child. |
| `Merging.ChildTaken` | original/Fuzzer/ISASim/riscv-isa-sim/fdt/fdt_overlay.c:590-596 | A child of the overlay's name is there after the merge of one child if and only if it was there before or no child answered to the name. |
| `Merging.OneMergedExact` | original/Fuzzer/ISASim/riscv-isa-sim/fdt/fdt_overlay.c:590-609 | The child of a name receives what the overlay has for it, whatever that is, if and only if the first child that answers to the name is the one that bears it. |
| `Merging.MergedChild` | original/Fuzzer/ISASim/riscv-isa-sim/fdt/fdt_overlay.c:582-609 | For every overlay with given child names, each child of the merge is the base's child of that name with all of the overlay's of that name merged into it, if and only if every name leads to itself in its turn. |
| `Merging.MergedName` | original/Fuzzer/ISASim/riscv-isa-sim/fdt/fdt_overlay.c:582-609 | For every overlay with given child names, the child of one name is the base's child of that name with the overlay's merged into it, if and only if the name leads to itself at its turns and no other overlay name leads to it. |
| `Merging.MergedValue` | original/Fuzzer/ISASim/riscv-isa-sim/fdt/fdt_overlay.c:556-612 | At every path whose own names are undisturbed in this sense and occur at most once in the overlay, a property of the merged tree has the overlay's value where the overlay sets one and the base's everywhere else. |
| `Merging.MergedAttr` | original/Fuzzer/ISASim/riscv-isa-sim/fdt/fdt_overlay.c:562-580 | For any two trees: the overlay's last value for a name wins, other names keep theirs. |
| `Merging.OneAttr` | original/Fuzzer/ISASim/riscv-isa-sim/fdt/fdt_rw.c:243-301 | Setting a property gives it the value, appending puts the value behind the old one, and no other property changes. |
| `Merging.OneRemoved` | original/Fuzzer/ISASim/riscv-isa-sim/fdt/fdt_rw.c:303-316 | Removing takes the first property of the name away and leaves everything else in place. |
| `Merging.StemCaptures` | original/Fuzzer/ISASim/riscv-isa-sim/fdt/fdt_overlay.c:590-596 | An overlay node a, applied where only a@1 exists, changes a@1 and adds no child. |
| `Phandles.ShiftOverlay` | original/Fuzzer/ISASim/riscv-isa-sim/fdt/fdt_overlay.c:829-842 | The overlay's phandles are shifted in place by the base's largest; it succeeds if and only if every phandle property has four bytes and room, and then every nonzero one is the old one plus the shift, above all of the base's and below 0xffffffff. |
| `Phandles.AdjustNode` | original/Fuzzer/ISASim/riscv-isa-sim/fdt/fdt_overlay.c:156-181 | The node and everything below it mean the shifted tree, nothing moves, and the rest of the overlay is as it was. |
| `Phandles.AddOffset` | original/Fuzzer/ISASim/riscv-isa-sim/fdt/fdt_overlay.c:116-138 | One phandle property is increased in place; BADPHANDLE and NOPHANDLES exactly for a wrong length and for a sum that wraps or is reserved. |
| `Phandles.ShiftedApart` | original/Fuzzer/ISASim/riscv-isa-sim/fdt/fdt_overlay.c:193-199 | Shifted by the base's largest phandle, no nonzero overlay phandle is one of the base's. |
| `Phandles.ShiftsIff` | original/Fuzzer/ISASim/riscv-isa-sim/fdt/fdt_overlay.c:116-181 | Shifting succeeds if and only if every phandle property has four bytes and the sum stays below 0xffffffff. |
| `Phandles.MaxBounds` | original/Fuzzer/ISASim/riscv-isa-sim/fdt/fdt_ro.c:103-129 | The largest phandle is at least every node's and is one of them, or 0. |
| `Meaning.PhandleFrom` | original/Fuzzer/ISASim/riscv-isa-sim/fdt/fdt_ro.c:487-502 | A phandle property of four bytes gives the phandle, and linux,phandle only in its absence. |
| `Phandles.ReferencesFollow` | original/Fuzzer/ISASim/riscv-isa-sim/fdt/fdt_overlay.c:193-199 | When every phandle has moved by the shift, a reference that named an overlay node names, increased by the shift and without a wrap, the node at the same offset; one that named none names none. |
| `References.BumpedRest` | original/Fuzzer/ISASim/riscv-isa-sim/fdt/fdt_overlay.c:259-277 | If the places do not overlap, each listed reference has grown by the shift, modulo 2^32, and every other byte is unchanged. |
| `References.BumpsIff` | original/Fuzzer/ISASim/riscv-isa-sim/fdt/fdt_overlay.c:259-277 | A list can be used on a value if and only if each of its places lies in the value. |
| `References.RefsAt` | original/Fuzzer/ISASim/riscv-isa-sim/fdt/fdt_overlay.c:220-305 | At every path to whose node no other name in the lists leads, a property listed at most once is what the list for it makes of it, and an unlisted one is unchanged. |
| `Fixups.BumpCell` | original/Fuzzer/ISASim/riscv-isa-sim/fdt/fdt_overlay.c:264-277 | One reference grows by the shift in place; for a place outside the value BADOVERLAY, and no answer when the read in front of that check leaves the blob. |
| `Fixups.UpdateCells` | original/Fuzzer/ISASim/riscv-isa-sim/fdt/fdt_overlay.c:259-278 | The loop over one list does what the list says, each word read from the blob as it is by then, and stops at the first place outside the value. |
| `Fixups.UpdateProps` | original/Fuzzer/ISASim/riscv-isa-sim/fdt/fdt_overlay.c:229-279 | The property loop uses every list of the node, or stops with BADOVERLAY at a list whose length is no multiple of four or whose property is not there. |
| `Fixups.UpdateNode` | original/Fuzzer/ISASim/riscv-isa-sim/fdt/fdt_overlay.c:220-305 | For every decoded overlay the recursion in place ends as Live says, with the same error; afterwards nothing but values differs and every node stands where it stood. |
| `LocalReferences.UpdateLocalReferences` | original/Fuzzer/ISASim/riscv-isa-sim/fdt/fdt_overlay.c:324-343 | The recursion starts at the root and at /__local_fixups__; without that node nothing is done. |
| `LocalReferences.ListsAreRead` | original/Fuzzer/ISASim/riscv-isa-sim/fdt/fdt_overlay.c:220-343 | If no child name of the lists leads to the lists themselves, the code's result is what the lists say as they stood at the start, and it fails exactly when one of these does not fit. |
| `LocalReferences.ListsItself` | original/Fuzzer/ISASim/riscv-isa-sim/fdt/fdt_overlay.c:259-298 | For each shift above 0, an overlay whose lists change a list before it is used: the code refuses it although the lists as they stood would fit. |
| `LocalReferences.PlaceOutside` | original/Fuzzer/ISASim/riscv-isa-sim/fdt/fdt_overlay.c:264-277 | For each place above 0 in a value of four bytes the code stops at that place. |
| `LocalReferences.FarOutside` | original/Fuzzer/ISASim/riscv-isa-sim/fdt/fdt_overlay.c:264-277 | In every blob the place 0x7fffffff in a value of four bytes makes the code read outside the blob. |
| `Renumbering.WordsFollow` | original/Fuzzer/ISASim/riscv-isa-sim/fdt/fdt_overlay.c:156-305 | After shift and update each word that the overlay as it came lists as a reference has grown by the shift. |
| `Renumbering.PhandlesFollow` | original/Fuzzer/ISASim/riscv-isa-sim/fdt/fdt_overlay.c:116-305 | After shift and update every phandle of the overlay has moved by the shift, once. |
| `Renumbering.PhandleRefused` | original/Fuzzer/ISASim/riscv-isa-sim/fdt/fdt_overlay.c:156-305 | With a shifted tree, shifted lists and a shift above 0 the update succeeds only if no list is for a phandle property. |
| `Renumbering.RefsKept` | original/Fuzzer/ISASim/riscv-isa-sim/fdt/fdt_overlay.c:220-305 | Lists that are for no phandle property change no phandle of any node. |
| `Renumbering.PhandleTwice` | original/Fuzzer/ISASim/riscv-isa-sim/fdt/fdt_overlay.c:259-277 | A list that was not shifted with the overlay moves a phandle by twice the shift. |
| `LocalReferences.ListedPhandle` | original/Fuzzer/ISASim/riscv-isa-sim/fdt/fdt_overlay.c:193-343 | An overlay that lists a phandle property, and whose lists do not list themselves, is refused whenever the shift is above 0. |
| `LocalReferences.LookupFollows` | original/Fuzzer/ISASim/riscv-isa-sim/fdt/fdt_overlay.c:193-343 | Looking up a known phandle increased by the shift in the blob afterwards gives the offset that the phandle had in the blob before. |
| `LocalReferences.ReferencesFollowed` | original/Fuzzer/ISASim/riscv-isa-sim/fdt/fdt_overlay.c:193-343 | Every listed reference has grown by the shift, and if it was the phandle of an overlay node, the lookup by phandle finds the same node by it in the blob afterwards as it found by the old word in the blob before. |
| `LocalReferences.RenumberOverlay` | original/Fuzzer/ISASim/riscv-isa-sim/fdt/fdt_overlay.c:829-846 | fdt_overlay_apply up to the update of the local references: exact errors; on success all nonzero overlay phandles lie above the base's and every listed reference follows its node, if the lists do not list themselves. |
| `InPlace.NopProperty` | original/Fuzzer/ISASim/riscv-isa-sim/fdt/fdt_wip.c:59-71 | On a blob with its blocks in any order, overwriting a property by NOPs gives the tree that deleting it gives, and only the bytes of the property changed. |
| `InPlace.NopNode` | original/Fuzzer/ISASim/riscv-isa-sim/fdt/fdt_wip.c:83-94 | The same for a node. |
| `InPlace.SetPropPartial` | original/Fuzzer/ISASim/riscv-isa-sim/fdt/fdt_wip.c:13-31 | A part of the value is overwritten and nothing moves; NOTFOUND and NOSPACE exactly as documented, except for an index whose sum with the length wraps. |
| `InPlace.AcceptedExact` | original/Fuzzer/ISASim/riscv-isa-sim/fdt/fdt_wip.c:26-27 | The test tells whether the part lies in the value, except exactly when index plus length wraps to a length the value has. |
| `InPlace.IndexWraps` | original/Fuzzer/ISASim/riscv-isa-sim/fdt/fdt_wip.c:26-27 | Index 0xFFFFFFFE with four bytes is accepted for a value of four bytes. |
| `InPlace.NopWritten` | original/Fuzzer/ISASim/riscv-isa-sim/fdt/fdt_wip.c:51-57 | A region filled with NOP tags encodes that many NOPs. |
| `Finish.Create` | original/Fuzzer/ISASim/riscv-isa-sim/fdt/fdt_sw.c:105-142 | The fresh blob is unfinished and empty, its reserve map at offset 48; NOSPACE exactly below 48 bytes, BADFLAGS exactly for unknown flags. |
| `Finish.AddReserve` | original/Fuzzer/ISASim/riscv-isa-sim/fdt/fdt_sw.c:180-198 | The reserve map grows by the entry, or NOSPACE. |
| `Finish.FinishReserve` | original/Fuzzer/ISASim/riscv-isa-sim/fdt/fdt_sw.c:200-209 | The reserve map is terminated and no call has been spelled out yet; exact error conditions. |
| `Writer.BeginNode` | original/Fuzzer/ISASim/riscv-isa-sim/fdt/fdt_sw.c:211-226 | One more call is spelled out by the structure block; NOSPACE leaves the blob as it was. |
| `Writer.EndNodeCall` | original/Fuzzer/ISASim/riscv-isa-sim/fdt/fdt_sw.c:228-240 | The same for the end of a node. |
| `Writer.PropertyCall` | original/Fuzzer/ISASim/riscv-isa-sim/fdt/fdt_sw.c:285-327 | The same for a property, its name found in or added to the strings that grow down from the end; fails exactly when name and entry do not fit between the regions, leaving both as before; goes astray exactly for an overlong name. |
| `Writer.RefusedExact` | original/Fuzzer/ISASim/riscv-isa-sim/fdt/fdt_sw.c:252-256 | The unsigned test of fdt_add_string_ tells whether the string fits if and only if the strings with it are no longer than the buffer. |
| `Writer.LongNameAccepted` | original/Fuzzer/ISASim/riscv-isa-sim/fdt/fdt_sw.c:252-256 | A buffer of 100 bytes and a name of 120: no room, and the test does not refuse. |
| `Writer.GrabSpace` | original/Fuzzer/ISASim/riscv-isa-sim/fdt/fdt_sw.c:90-103 | The structure block grows exactly when it does not meet the strings, so the two regions never overlap. |
| `Finish.ShiftNames` | original/Fuzzer/ISASim/riscv-isa-sim/fdt/fdt_sw.c:353-370 | The loop of fdt_finish rewrites every name offset from the end of the strings to their start and changes nothing else. |
| `Finish.FinishBlob` | original/Fuzzer/ISASim/riscv-isa-sim/fdt/fdt_sw.c:329-376 | The finished blob spells out exactly the calls that were made, its front and reserve map are untouched and no byte is unused; if no call was taken back, every byte of the structure block is determined, zeros for padding. |
| `Finish.ReadsBackCalls` | original/Fuzzer/ISASim/riscv-isa-sim/fdt/fdt_sw.c:329-376 | The token walk of a finished blob gives back the sequence of calls, names recovered through the relocated, shared strings. |
| `Finish.TokensBuild` | original/Fuzzer/ISASim/riscv-isa-sim/fdt/fdt.c:131-182 | Tokens for the calls of a tree encode items that mean that tree. |
| `Finish.WritesTree` | original/Fuzzer/ISASim/riscv-isa-sim/fdt/fdt_sw.c:211-376 | Writing the calls of any tree yields a blob that denotes exactly this tree. |
| `Finish.HalfwayStep` | original/Fuzzer/ISASim/riscv-isa-sim/fdt/fdt_sw.c:356-369 | One round of the name-offset loop moves the boundary between rewritten and original tokens by one. |
| `Relocate.Resize` | original/Fuzzer/ISASim/riscv-isa-sim/fdt/fdt_sw.c:144-178 | For any relative position of old and new buffer in one memory the unfinished blob is moved intact, the calls and reserve entries made so far stay made; bytes outside the new buffer are unchanged; exact error conditions. |
| `Relocate.CopyEnds` | original/Fuzzer/ISASim/riscv-isa-sim/fdt/fdt_sw.c:160-169 | Head and tail arrive intact although the windows may overlap, because of the order of the two copies. |
| `Relocate.Pack` | original/Fuzzer/ISASim/riscv-isa-sim/fdt/fdt_rw.c:464-476 | In-place packing keeps reserve map, structure block and strings and makes the total size exactly what they take. |
| `Relocate.ReservesReadBack` | original/Fuzzer/ISASim/riscv-isa-sim/fdt/fdt_ro.c:149-185 | Reserve entries of nonzero size are counted and read back as they were added, wherever the map stands. |
| `Relocate.PackedMap` | original/Fuzzer/ISASim/riscv-isa-sim/fdt/fdt_rw.c:378-398 | Packing a blob with such a map keeps the map. |
| `Relocate.NumRsvSame` | original/Fuzzer/ISASim/riscv-isa-sim/fdt/fdt_ro.c:175-185 | The reserve map is counted the same wherever the blocks behind it stand. |
| `Coherence.RunsAreSafe` | execution/src/adapters/tilelink/adapter.py:304-741 | Along every run of adapter and core (with fewer acquires at a time than sinks, and host probes of listed blocks) no assertion fails, no unfinished path is reached, and the invariant holds. |
| `Coherence.StepKeeps` | execution/src/adapters/tilelink/adapter.py:304-741 | Every step the environment may take succeeds, keeps the invariant, and serves requests for probes in the order in which they were made. |
| `Runs.CoherentRuns` | execution/src/adapters/tilelink/adapter.py:137-139 | In every run a block that the core holds exclusively is recorded TRUNK, a TIP block is current in memory, and every copy in the core holds the last values. |
| `Runs.GetIsCurrent` | execution/src/adapters/tilelink/adapter.py:336-347 | A Get is answered at once exactly when the block is TIP, and then with the values last written; otherwise a probe of its address and size joins the pending ones at their end, and serving its callback answers with the words asked for, under the Get's source. |
| `Runs.AcquireIsCurrent` | execution/src/adapters/tilelink/adapter.py:478-502 | An acquire of a TIP block is granted with the values last written. |
| `Runs.AnswerIsCurrent` | execution/src/adapters/tilelink/adapter.py:569-591 | When a probe's answer is complete, the callback stored for it queues the values last written, the data just written back included. |
| `Replies.EveryReply` | execution/src/adapters/tilelink/adapter.py:304-620 | In every run each Get and each acquire is answered once or still open, those that wait in the order of asking, with the words last written and under its own source; writes and releases are acknowledged when complete; the core was told what was owed, in that order, and nothing else. |
| `Replies.StepHonest` | execution/src/adapters/tilelink/adapter.py:304-745 | Every step keeps the log right: the host's and the shutdown's asks included, the open asks are the pending requests in order, each with its own probe. |
| `TileLink.AddressParts` | execution/src/adapters/tilelink/adapter.py:325-329 | Blocks and words are the multiples of 64 and of 8 at or below the address. |
| `Sources.AckedBooks` | execution/src/adapters/tilelink/utils.py:228-286 | Answering the oldest probe runs its callback and releases its source to the request that waited longest; a source is absent from the free list exactly when one probe and one callback go by it. |
| `Sources.RetrieveBooks` | execution/src/adapters/tilelink/adapter.py:141-154 | A request is sent under a free source or queued, never fails, and becomes the last of the pending ones. |
| `Sources.SendBooks` | execution/src/adapters/tilelink/adapter.py:150-154 | Sending books the new probe at the end of the outstanding ones. |
| `Coherence.AckKeeps` | execution/src/adapters/tilelink/adapter.py:569-591 | What the callback of an answered probe does keeps the invariant. |
| `Coherence.GrantKeeps` | execution/src/adapters/tilelink/adapter.py:198-206 | Issuing a grant keeps the invariant: its beats carry the last values and only the first one carries the permission update. |
| `Coherence.TakeDKeeps` | execution/src/adapters/tilelink/adapter.py:643-667 | A beat of a grant that arrives is the next word of the block and current. |
| `Flush.ShutdownFlushes` | execution/src/adapters/tilelink/adapter.py:252-269 | If no acquire is under way when the shutdown begins and none is made later, memory holds the last value of every word when drive is cleared. |
| `Flush.ShutdownProbesAll` | execution/src/adapters/tilelink/adapter.py:252-269 | In every run, when drive is cleared the blocks listed when the shutdown began have all been probed and answered, in that order. |
| `Coherence.AcquireExact` | execution/src/adapters/tilelink/adapter.py:478-502 | An acquire meets the failing assertion of the sink list if and only if as many acquires as there are sinks are under way. |
| `Coherence.HostProbeExact` | execution/src/adapters/tilelink/adapter.py:720-741 | A probe asked for by the host meets the failing assertion if and only if its turn has come and its block is not listed. |
| `Flush.EveryShutdownEnds` | execution/src/adapters/tilelink/adapter.py:710-717 | From wherever a run has got to after stop, deliveries and answers alone finish the shutdown, within a bound. |
| `Flush.DeliveriesEnd` | execution/src/adapters/tilelink/adapter.py:636-708 | No run of deliveries and answers is longer than the work there is. |
| `Flush.Progress` | execution/src/adapters/tilelink/adapter.py:636-708 | While the shutdown is under way something can be delivered or answered: the system does not deadlock. |
| `Bursts.PutBurst` | execution/src/adapters/tilelink/adapter.py:349-399 | After a complete Put burst on a TIP block memory is the old one with exactly the selected bytes of each beat replaced, one acknowledgement is queued and no burst state remains. |
| `Bursts.GetAfterPut` | execution/src/adapters/tilelink/adapter.py:327-347 | A Get burst of the same words then queues them in order and un-interleaved. |
| `Bursts.ReleaseBurst` | execution/src/adapters/tilelink/adapter.py:599-613 | After a complete ReleaseData burst memory holds the whole words of each beat and is otherwise unchanged, one acknowledgement is queued and no burst state remains. |
| `Atomics.AtomicOnLane` | execution/src/adapters/tilelink/adapter.py:209-240 | For every contiguous mask the operation replaces exactly the selected lane by the signed or unsigned minimum or maximum or the modular sum at the lane's width. |
| `Atomics.ArithmeticInMemory` | execution/src/adapters/tilelink/adapter.py:402-434 | The handler does this to the addressed word on a TIP block and to no other word. |
| `Atomics.SizeOp` | execution/src/adapters/tilelink/adapter.py:209-217 | The loop that sizes the operands counts eight bits for each set bit of the mask. |
| `Atomics.SignedIs` | execution/src/adapters/tilelink/adapter.py:219-225 | The code's signed reading of an operand is two's complement at the lane's width. |
| `TlAdapter.Adapter.Get` | execution/src/adapters/tilelink/adapter.py:336-347 | The method takes the machine's Get step, failing exactly when it does. |
| `TlAdapter.Adapter.Put` | execution/src/adapters/tilelink/adapter.py:349-399 | The method takes the machine's Put step. |
| `TlAdapter.Adapter.AcquireBlock` | execution/src/adapters/tilelink/adapter.py:478-502 | The method takes the machine's acquire step under some free sink. |
| `TlAdapter.Adapter.ProbeAck` | execution/src/adapters/tilelink/adapter.py:569-574 | The method records the report, runs the callback and releases the source, as the machine does. |
| `TlAdapter.Adapter.ProbeAckData` | execution/src/adapters/tilelink/adapter.py:576-591 | The same with one beat of data. |
| `TlAdapter.Adapter.ReleaseData` | execution/src/adapters/tilelink/adapter.py:599-613 | The method takes the machine's release step for one beat. |
| `TlAdapter.Adapter.ReleaseMessage` | execution/src/adapters/tilelink/adapter.py:593-597 | The method takes the machine's release step without data. |
| `TlAdapter.Adapter.GrantAck` | execution/src/adapters/tilelink/adapter.py:626-630 | The sink is released and the grant forgotten. |
| `TlAdapter.Adapter.DriveD` | execution/src/adapters/tilelink/adapter.py:643-667 | The next message is taken and its permission update runs. |
| `TlAdapter.Adapter.DriveB` | execution/src/adapters/tilelink/adapter.py:675-708 | The next probe is driven. |
| `TlAdapter.Adapter.HostInterface` | execution/src/adapters/tilelink/adapter.py:720-741 | A probe that the host asks for is sent or queued, failing exactly when the machine does. |
| `TlAdapter.Adapter.AnswerMessages` | execution/src/adapters/tilelink/adapter.py:102-122 | The loop builds one message per word, in order, with missing words read as zero. |
| `Mutator.ResetLabels` | original/Fuzzer/src/mutator.py:325-339 | Word i carries label i afterwards; a target whose word is still there follows it, any other is chosen among the labels behind; with rising old labels every target then lies behind its word. |
| `Mutator.Corpus.Get` | original/Fuzzer/src/mutator.py:358-444 | In every phase the program that is returned has word i under label i and every target behind its word, and its words are the chosen ones in their order. |
| `Mutator.MutatedInOrder` | original/Fuzzer/src/mutator.py:341-351 | Each word that is kept stands right behind what the words in front of it became, its fresh word right behind it, and a dropped word leaves nothing. |
| `Mutator.Corpus.Add` | original/Fuzzer/src/mutator.py:458-463 | The program joins the corpus, the oldest one leaves when there are too many, and every program stays forward and populated. |
| `Mutator.MutateWords` | original/Fuzzer/src/mutator.py:341-356 | The chosen words in order, cut to the limit and relabelled: each jump follows its word or is chosen anew, and every jump leads forward. |
| `Mutator.MergeRises` | original/Fuzzer/src/mutator.py:389-406 | The front of one program and the back of another carry rising labels. |
| `Mutator.RunsEnd` | original/Fuzzer/src/inst_generator.py:7-13 | Every run along words and targets visits at most as many words as there are: it cannot loop. |
| `TestFile.SaveLoad` | original/Fuzzer/src/mutator.py:40-62 | Reading a saved input gives back its template, words, labels, instruction columns, one interrupt value per main instruction, and data. |
| `TestFile.SaveExample` | original/Fuzzer/src/mutator.py:40-62 | A file line by line: template, labelled and unlabelled instructions in 50 columns with four binary digits, data of sixteen hexadecimal digits. |
| `TestFile.ReadSimInput` | original/Fuzzer/src/mutator.py:162-235 | The loop over the lines of a file computes Load. |
| `Minimizer.Minimize` | original/Fuzzer/Minimizer.py:59-124 | The program that is kept still fails if the original does; for a part of at least two words and a failure that bringing words back does not cure, no further word can be replaced. |
| `Minimizer.TryWindows` | original/Fuzzer/Minimizer.py:77-120 | A round only adds to the mask, and with windows of one word every word is masked or was needed. |
| `Minimizer.WindowsPart` | original/Fuzzer/Minimizer.py:73-92 | For every length the windows of a round part the words: each word lies in exactly one. |
| `Minimizer.LastWindows` | original/Fuzzer/Minimizer.py:72-75 | In the last round of a part of at least two words the windows have one word. |
| `Counters.NumbersAreUnique` | original/Fuzzer/src/multicore_manager.py:117-133 | Over every interleaving of any number of workers at most one is between read_num and write_num, no number is handed out twice, and the stored number is the first one plus the completed increments. |
| `Counters.StepKeeps` | original/Fuzzer/src/multicore_manager.py:117-133 | Every step keeps mutual exclusion and the tally. |
| `Counters.NobodyStuck` | original/Fuzzer/src/multicore_manager.py:125-133 | Some worker can go on if and only if none was stopped at the last 32-bit number. |
| `FreeLists.FreeList.Release` | execution/src/adapters/tilelink/utils.py:251-263 | An element is given back once, and the event that waited longest is handed out. |

## Left out

- TlAdapter.Adapter.Put: on a block that is not TIP the code first sends a probe; its callback cannot run as written, so the method fails at once.
- Versions below 17 of the format: the structure block's size is read from the header throughout.
- The overlay's symbol update and the fixups against base phandles.
- Lengths are within INT_MAX; sums of lengths that the code adds as `int` beyond that are not modelled, unless said above.
- A target path and an alias are used up to their terminators; the code reads them as C strings and does not check that there is one.
- `fdt_open_into`, `fdt_move`, the editing of the reserve map (`fdt_add_mem_rsv`, `fdt_del_mem_rsv`), string lists and property addresses.
- A blob of exactly INT_MAX bytes is not covered by `fdt_finish` and `fdt_pack`.
- The adapter's paths that cannot run as written (the callbacks of a Put or an atomic on a block that is not TIP, AcquirePerm on such a block, the perm-only grant) yield `None`; `Coherence.RunsAreSafe` shows that the modelled core never gets there by Put. Atomics, LogicalData, Intent and AcquirePerm are not among the steps of a run.
- The data that an atomic returns: its lane is marked unsettled in the code; the message is not modelled.
- The signals of the ports, the clock and debug-only assertions; a message is delivered in one step once its port is driven.
- Multi-core coherence: one adapter serves one core.
- The texts of generated instructions: `Mutator` keeps of a word its label, whether it transfers control, and its target. Loads that name a label are no transfers of control.
- `Minimizer` takes the logarithm rounded down, as the code's floating-point one is for every length that occurs, and an oracle without tool errors; the final attempt to delete the `nop`s is not modelled.
- `int` also accepts spaces, signs and underscores; `TestFile.Parse` takes digits only.
- The worker state bytes and the coverage maps of the multi-process manager.
