/**
 * `concat(name)`: a transform stream that buffers every incoming file, each
 * followed by a newline, and emits one file named `name` when flushed.
 */
module Concat {
  import opened Wrappers
  import opened Paths

  newtype byte = x: int | 0 <= x < 256

  /** The newline buffer pushed after every file. */
  const Newline: byte := 10

  /** The parts of a Vinyl file that `concat` reads and writes. */
  datatype File = File(cwd: string, base: string, path: string, contents: seq<byte>)

  /** The metadata `concat` copies from the first file it sees. */
  datatype Meta = Meta(cwd: string, base: string)

  /** Flushing before any file arrived reads `base` of a null `meta` and throws. */
  datatype ConcatError = NoInput

  /** The contents of `files`, in order. */
  function ContentsOf(files: seq<File>): seq<seq<byte>>
  {
    seq(|files|, i requires 0 <= i < |files| => files[i].contents)
  }

  /** Reference definition: each input followed by one newline, in arrival order. */
  function Bundle(inputs: seq<seq<byte>>): seq<byte>
  {
    if inputs == [] then [] else Bundle(inputs[..|inputs| - 1]) + inputs[|inputs| - 1] + [Newline]
  }

  /** The list of buffers after pushing each input and then a newline buffer. */
  function Framed(inputs: seq<seq<byte>>): seq<seq<byte>>
  {
    if inputs == [] then [] else Framed(inputs[..|inputs| - 1]) + [inputs[|inputs| - 1], [Newline]]
  }

  /** `Buffer.concat`: the bytes of every buffer, in order. */
  function Flatten(buffers: seq<seq<byte>>): (r: seq<byte>)
    ensures |r| == TotalLength(buffers)
  {
    if buffers == [] then [] else Flatten(buffers[..|buffers| - 1]) + buffers[|buffers| - 1]
  }

  /** Sum of the lengths of `inputs`. */
  function TotalLength(inputs: seq<seq<byte>>): nat
  {
    if inputs == [] then 0 else TotalLength(inputs[..|inputs| - 1]) + |inputs[|inputs| - 1]|
  }

  lemma {:induction false} FlattenAppend(a: seq<seq<byte>>, b: seq<seq<byte>>)
    ensures Flatten(a + b) == Flatten(a) + Flatten(b)
  {
    if b != [] {
      var b' := b[..|b| - 1];
      assert (a + b)[..|a + b| - 1] == a + b';
      FlattenAppend(a, b');
    } else {
      assert a + b == a;
    }
  }

  /** The buffers `concat` accumulates concatenate to the bundle. */
  lemma {:induction false} FlattenFramed(inputs: seq<seq<byte>>)
    ensures Flatten(Framed(inputs)) == Bundle(inputs)
  {
    if inputs != [] {
      var init, last := inputs[..|inputs| - 1], inputs[|inputs| - 1];
      FlattenFramed(init);
      FlattenAppend(Framed(init), [last, [Newline]]);
      assert Flatten([last, [Newline]]) == last + [Newline] by {
        assert [last, [Newline]][..1] == [last];
        assert Flatten([last]) == last by { assert [last][..0] == []; }
      }
    }
  }

  /** The output length is the sum of the input lengths plus one per input. */
  lemma {:induction false} BundleLength(inputs: seq<seq<byte>>)
    ensures |Bundle(inputs)| == TotalLength(inputs) + |inputs|
  {
    if inputs != [] {
      BundleLength(inputs[..|inputs| - 1]);
    }
  }

  /** Where input `i` starts in the bundle: the bytes and newlines of the inputs before it. */
  function Offset(inputs: seq<seq<byte>>, i: nat): nat
    requires i <= |inputs|
  {
    TotalLength(inputs[..i]) + i
  }

  /** Input `i` appears verbatim at its offset in the bundle, directly followed by a newline. */
  lemma {:induction false} BundleAt(inputs: seq<seq<byte>>, i: nat)
    requires i < |inputs|
    ensures Offset(inputs, i) + |inputs[i]| < |Bundle(inputs)|
    ensures Bundle(inputs)[Offset(inputs, i)..Offset(inputs, i) + |inputs[i]|] == inputs[i]
    ensures Bundle(inputs)[Offset(inputs, i) + |inputs[i]|] == Newline
  {
    var init := inputs[..|inputs| - 1];
    var prefix := Bundle(init);
    if i == |inputs| - 1 {
      BundleLength(init);
      assert inputs[..i] == init;
    } else {
      BundleAt(init, i);
      assert init[..i] == inputs[..i];
      assert init[i] == inputs[i];
    }
  }

  /** The bundle of "a{}" and "b{}" is "a{}\nb{}\n". */
  lemma BundleExample()
    ensures Bundle([[97, 123, 125], [98, 123, 125]]) == [97, 123, 125, 10, 98, 123, 125, 10]
  {
  }

  /** The transform stream returned by `concat(name)`. */
  class ConcatTransform {
    const name: string
    var buffers: seq<seq<byte>>
    var meta: Option<Meta>
    /** The files received so far, in arrival order. */
    ghost var received: seq<File>

    ghost predicate Valid()
      reads this
    {
      && buffers == Framed(ContentsOf(received))
      && meta == (if received == [] then None else Some(Meta(received[0].cwd, received[0].base)))
    }

    constructor (name: string)
      ensures Valid() && this.name == name && received == []
      ensures buffers == [] && meta == None
    {
      this.name := name;
      buffers := [];
      meta := None;
      received := [];
    }

    /** Pushes the file's contents and a newline; records the metadata of the first file only. */
    method Transform(file: File)
      requires Valid()
      modifies this
      ensures Valid() && received == old(received) + [file]
      ensures buffers == old(buffers) + [file.contents, [Newline]]
      ensures meta == if old(meta) == None then Some(Meta(file.cwd, file.base)) else old(meta)
    {
      buffers := buffers + [file.contents];
      buffers := buffers + [[Newline]];
      if meta == None {
        meta := Some(Meta(file.cwd, file.base));
      }
      received := received + [file];
      assert ContentsOf(received)[..|received| - 1] == ContentsOf(old(received));
    }

    /**
     * Emits one file under the first file's `base`, named `name`, whose contents
     * are all received contents, each followed by a newline.
     */
    method Flush() returns (r: Result<File, ConcatError>)
      requires Valid()
      ensures received == [] <==> r.Failure?
      ensures r.Success? ==> && r.value.cwd == received[0].cwd
                             && r.value.base == received[0].base
                             && r.value.path == Join(received[0].base, name)
                             && r.value.contents == Bundle(ContentsOf(received))
    {
      match meta
      case None =>
        r := Failure(NoInput);
      case Some(m) =>
        FlattenFramed(ContentsOf(received));
        r := Success(File(m.cwd, m.base, Join(m.base, name), Flatten(buffers)));
    }
  }

  /** `src(css).pipe(concat('style.css'))`: the stylesheets streamed through one `concat`. */
  method BuildStyles(files: seq<File>) returns (r: Result<File, ConcatError>)
    ensures files == [] <==> r.Failure?
    ensures files != [] ==> && r.Success?
                            && r.value.cwd == files[0].cwd
                            && r.value.base == files[0].base
                            && r.value.path == Join(files[0].base, "style.css")
                            && r.value.contents == Bundle(ContentsOf(files))
  {
    var stream := new ConcatTransform("style.css");
    for i := 0 to |files|
      invariant stream.Valid() && stream.name == "style.css"
      invariant stream.received == files[..i]
    {
      stream.Transform(files[i]);
      assert files[..i + 1] == files[..i] + [files[i]];
    }
    assert files[..|files|] == files;
    r := stream.Flush();
  }
}
